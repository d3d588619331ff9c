/** A client's connector on its event loop: attempts, failures, retries on a timer, hand-over of
    the connected socket and restart after it closes. The loop alternates between a phase that
    handles events and timers and a drain of the functors queued before it. */
module ConnectorModel {
  import opened Bounds

  const INIT_RETRY_DELAY_MS: nat := 500
  const MAX_RETRY_DELAY_MS: nat := 30000

  datatype Option<T> = None | Some(value: T)

  datatype States = Disconnected | Connecting | Connected

  /** The three ways connect(2) turns out: under way, worth another try, hopeless. */
  datatype Outcome = InProgress | TryLater | Hopeless

  datatype Functor = StartInLoop | StopInLoop | ResetChannel | CloseConnection(fd: nat)

  /** young: set during the event phase that is still going on. */
  datatype Timer = Off | Pending(young: bool)

  /** left: how many functors of the drain under way are still to run. */
  datatype Phase = Handling | Draining(left: nat)

  /** watched: the poller reports events of the channel. Sockets are numbered in the order they are
      created; closed and handed count what was done with each. queue holds the functors waiting, in
      the order they will run. up is the connection made from the last socket handed over, upYoung
      that this happened in the current event phase.
      delays are those scheduled since the last restart. over: the last attempt failed for good, or
      its connection closed and the client wants no other. */
  datatype State = State(connect: bool, st: States, channel: Option<nat>, watched: bool, retryDelayMs: nat,
                         queue: seq<Functor>, phase: Phase, timer: Timer, created: nat,
                         closed: multiset<nat>, handed: multiset<nat>, up: Option<nat>, upYoung: bool,
                         started: bool, stopped: bool, over: bool, delays: seq<nat>)

  datatype Event =
    | Start(inLoop: bool, o: Outcome)
    | Stop
    | Dispatch(error: bool, writable: bool, soError: bool)
    | TimerFires(o: Outcome)
    | ForceClose
    | PeerCloses(retry: bool, o: Outcome)
    | BeginDrain
    | RunFunctor(retry: bool, o: Outcome)
    | EndDrain

  // ---- the functions of the source ----

  /** retry */
  function Retry(s: State, fd: nat): State {
    var t := s.(closed := s.closed + multiset{fd}, st := Disconnected);
    if s.connect then
      t.(timer := Pending(s.phase.Handling?), delays := s.delays + [s.retryDelayMs],
         retryDelayMs := Min(2 * s.retryDelayMs, MAX_RETRY_DELAY_MS))
    else t
  }

  /** connect */
  function Connect(s: State, o: Outcome): State {
    var fd := s.created;
    var t := s.(created := s.created + 1);
    match o
    case InProgress => t.(st := Connecting, channel := Some(fd), watched := true)
    case TryLater => Retry(t, fd)
    case Hopeless => t.(closed := t.closed + multiset{fd}, over := true)
  }

  /** startInLoop */
  function StartIn(s: State, o: Outcome): State {
    if s.connect then Connect(s, o) else s
  }

  /** removeAndResetChannel: the channel object stays until the queued reset runs. */
  function RemoveChannel(s: State): State {
    s.(watched := false, queue := s.queue + [ResetChannel])
  }

  /** stopInLoop */
  function StopIn(s: State): State {
    if s.st.Connecting? && s.channel.Some? then Retry(RemoveChannel(s.(st := Disconnected)), s.channel.value) else s
  }

  /** handleWrite; soError stands for a pending socket error or a self-connect */
  function HandleWrite(s: State, soError: bool): State {
    if s.st.Connecting? && s.channel.Some? then
      var fd := s.channel.value;
      var t := RemoveChannel(s);
      if soError then Retry(t, fd)
      else if s.connect then t.(st := Connected, handed := t.handed + multiset{fd}, up := Some(fd), upYoung := true)
      else t.(st := Connected, closed := t.closed + multiset{fd})
    else s
  }

  /** handleError */
  function HandleError(s: State): State {
    if s.st.Connecting? && s.channel.Some? then Retry(RemoveChannel(s), s.channel.value) else s
  }

  /** restart, called when a connection closes and the client wants another */
  function Restart(s: State, o: Outcome): State {
    StartIn(s.(st := Disconnected, retryDelayMs := INIT_RETRY_DELAY_MS, connect := true, delays := []), o)
  }

  /** the client's removeConnection */
  function ConnectionCloses(s: State, retry: bool, o: Outcome): State {
    if retry && !s.stopped then Restart(s.(up := None), o) else s.(up := None, over := true)
  }

  // ---- the loop ----

  predicate Enabled(s: State, e: Event) {
    match e
    case Start(_, _) => !s.started && !s.stopped
    case Stop => true
    case Dispatch(_, _, _) => s.phase.Handling? && s.watched
    case TimerFires(_) => s.phase.Handling? && s.timer.Pending?
    case ForceClose => s.up.Some?
    // a descriptor registered during this phase was not polled before it
    case PeerCloses(_, _) => s.phase.Handling? && s.up.Some? && !s.upYoung
    case BeginDrain => s.phase.Handling?
    case RunFunctor(_, _) => s.phase.Draining? && 0 < s.phase.left <= |s.queue|
    case EndDrain => s.phase.Draining? && s.phase.left == 0
  }

  function RunHead(s: State, f: Functor, retry: bool, o: Outcome): State {
    match f
    case StartInLoop => StartIn(s, o)
    case StopInLoop => StopIn(s)
    case ResetChannel => s.(channel := None)
    // forceCloseInLoop of a connection that has closed does nothing
    case CloseConnection(fd) => if s.up == Some(fd) then ConnectionCloses(s, retry, o) else s
  }

  function Popped(s: State): State
    requires s.phase.Draining? && 0 < s.phase.left <= |s.queue|
  {
    s.(phase := Draining(s.phase.left - 1), queue := s.queue[1..])
  }

  function Apply(s: State, e: Event): State
    requires Enabled(s, e)
  {
    match e
    case Start(inLoop, o) =>
      var t := s.(connect := true, started := true);
      if inLoop then StartIn(t, o) else t.(queue := t.queue + [StartInLoop])
    case Stop => s.(connect := false, stopped := true, queue := s.queue + [StopInLoop])
    case Dispatch(error, writable, soError) =>
      var t := if error then HandleError(s) else s;
      if writable then HandleWrite(t, soError) else t
    case TimerFires(o) => StartIn(s.(timer := Off), o)
    case ForceClose => s.(queue := s.queue + [CloseConnection(s.up.value)])
    case PeerCloses(retry, o) => ConnectionCloses(s, retry, o)
    case BeginDrain => s.(phase := Draining(|s.queue|))
    case RunFunctor(retry, o) => RunHead(Popped(s), s.queue[0], retry, o)
    case EndDrain =>
      s.(phase := Handling, upYoung := false, timer := if s.timer.Pending? then Pending(false) else Off)
  }

  /** Whether this step gets as far as calling connect(2). */
  predicate Connects(s: State, e: Event)
    requires Enabled(s, e)
  {
    match e
    case Start(inLoop, _) => inLoop
    case TimerFires(_) => s.connect
    case PeerCloses(retry, _) => retry && !s.stopped
    case RunFunctor(retry, _) =>
      (match s.queue[0]
       case StartInLoop => s.connect
       case CloseConnection(fd) => s.up == Some(fd) && retry && !s.stopped
       case _ => false)
    case _ => false
  }

  /** What the source asserts and relies on: connecting, which is called only if connect(2) does not
      fail at once, begins without a channel, startInLoop is entered disconnected, a dispatch finds a
      channel to work on; and no retry is scheduled or attempt begun while another timer is pending. */
  predicate Asserted(s: State, e: Event)
    requires Enabled(s, e)
  {
    && (Connects(s, e) && e.o.InProgress? ==> s.channel.None?)
    && (e.TimerFires? || (e.RunFunctor? && s.queue[0].StartInLoop?) ==> s.st.Disconnected?)
    && (e.Dispatch? ==> s.st.Connecting?)
    && (s.st.Connecting? ==> s.channel.Some?)
    && (e.Dispatch? || (Connects(s, e) && !e.TimerFires?) ==> s.timer.Off?)
  }

  /** No retry timer fires while a connection is wanted and the reset of the used channel is still
      queued, to start an attempt that does not fail at once. Only a timer that fires in the event
      phase that set it could. */
  predicate ResetDone(s: State, e: Event)
    requires Enabled(s, e)
  {
    !(e.TimerFires? && s.connect && ResetChannel in s.queue && e.o.InProgress?)
  }

  ghost predicate Reach(s: State, es: seq<Event>, t: State)
    decreases |es|
  {
    if |es| == 0 then s == t
    else Enabled(s, es[0]) && ResetDone(s, es[0]) && Reach(Apply(s, es[0]), es[1..], t)
  }

  /** Any run at all. */
  ghost predicate Happens(s: State, es: seq<Event>, t: State)
    decreases |es|
  {
    if |es| == 0 then s == t else Enabled(s, es[0]) && Happens(Apply(s, es[0]), es[1..], t)
  }

  ghost predicate AllAsserted(s: State, es: seq<Event>)
    decreases |es|
  {
    |es| > 0 ==> Enabled(s, es[0]) && Asserted(s, es[0]) && AllAsserted(Apply(s, es[0]), es[1..])
  }

  /** No phase lasts as long as the shortest delay, so no timer fires in the phase that set it. */
  ghost predicate NoYoungTimer(s: State, es: seq<Event>)
    decreases |es|
  {
    |es| > 0 ==>
      && Enabled(s, es[0]) && (es[0].TimerFires? ==> !s.timer.young)
      && NoYoungTimer(Apply(s, es[0]), es[1..])
  }

  function Init(): State {
    State(false, Disconnected, None, false, INIT_RETRY_DELAY_MS, [], Handling, Off, 0, multiset{}, multiset{},
          None, false, false, false, false, [])
  }

  // ---- the invariant ----

  function Pow2(k: nat): nat {
    if k == 0 then 1 else 2 * Pow2(k - 1)
  }

  /** The delay after k retries since the last restart. */
  function Delay(k: nat): nat {
    Min(INIT_RETRY_DELAY_MS * Pow2(k), MAX_RETRY_DELAY_MS)
  }

  ghost predicate Backoff(s: State) {
    && s.retryDelayMs == Delay(|s.delays|)
    && forall k :: 0 <= k < |s.delays| ==> s.delays[k] == Delay(k)
  }

  function Held(s: State, fd: nat): nat {
    if s.st.Connecting? && s.channel == Some(fd) then 1 else 0
  }

  /** Every socket created is closed once, handed over once, or held by the attempt under way. */
  ghost predicate Ledger(s: State) {
    forall fd: nat :: s.closed[fd] + s.handed[fd] + Held(s, fd) == if fd < s.created then 1 else 0
  }

  ghost predicate Once(q: seq<Functor>, f: Functor) {
    forall i, j :: 0 <= i < j < |q| && q[i] == f ==> q[j] != f
  }

  ghost predicate Before(q: seq<Functor>, f: Functor, g: Functor) {
    forall i, j :: 0 <= i < |q| && 0 <= j < |q| && q[i] == f && q[j] == g ==> i < j
  }

  /** Nothing has been tried yet. */
  predicate Pristine(s: State) {
    s.st.Disconnected? && s.channel.None? && s.timer.Off? && s.up.None? && !s.over
  }

  /** A used channel is kept exactly until its reset runs. */
  ghost predicate Channels(s: State) {
    && (s.watched <==> s.st.Connecting?)
    && (s.st.Connecting? ==> s.channel.Some?)
    && (s.channel.Some? && !s.st.Connecting? <==> ResetChannel in s.queue)
    && Once(s.queue, ResetChannel)
  }

  ghost predicate Turns(s: State) {
    && (s.phase.Draining? ==> s.phase.left <= |s.queue|)
    && (s.timer.Pending? ==> s.st.Disconnected? && s.up.None?)
    && (s.up.Some? ==> s.st.Connected? && s.handed[s.up.value] > 0)
    && (s.stopped ==> !s.connect)
    && (s.connect ==> s.started)
    && (StopInLoop in s.queue ==> s.stopped)
    && (forall i :: 0 <= i < |s.queue| && s.queue[i].CloseConnection? ==> s.handed[s.queue[i].fd] > 0)
  }

  ghost predicate Starts(s: State) {
    && Once(s.queue, StartInLoop)
    && (StartInLoop in s.queue ==> s.started)
    && (!s.started || StartInLoop in s.queue ==> Pristine(s))
  }

  /** Until the client stops, the reset of a used channel runs before anything that could connect. */
  ghost predicate ResetsFirst(s: State) {
    ResetChannel in s.queue && !s.stopped ==>
      && (s.phase.Handling? ==> (s.timer.Pending? ==> s.timer.young) && (s.up.Some? ==> s.upYoung))
      && (s.phase.Draining? ==> ResetChannel in s.queue[..Min(s.phase.left, |s.queue|)])
      && (s.up.Some? ==> Before(s.queue, ResetChannel, CloseConnection(s.up.value)))
  }

  /** While the client wants a connection, one is up, under way or about to be tried. */
  ghost predicate Persists(s: State) {
    s.connect && !s.over ==> s.up.Some? || s.st.Connecting? || s.timer.Pending? || StartInLoop in s.queue
  }

  /** An attempt that the client has called off is still to be cut short. */
  ghost predicate Stops(s: State) {
    s.stopped && s.st.Connecting? ==> StopInLoop in s.queue
  }

  ghost predicate Inv(s: State) {
    Stops(s) && Ledger(s) && Backoff(s) && Channels(s) && Turns(s) && Starts(s) && ResetsFirst(s) && Persists(s)
  }

  // ---- every step keeps it ----

  lemma {:induction false} NextDelay(k: nat)
    ensures Min(2 * Delay(k), MAX_RETRY_DELAY_MS) == Delay(k + 1)
    ensures Delay(0) == INIT_RETRY_DELAY_MS
  {
    assert Pow2(k + 1) == 2 * Pow2(k);
  }

  lemma Appended(q: seq<Functor>, f: Functor)
    ensures forall g :: g in q + [f] <==> g in q || g == f
    ensures forall g :: Once(q, g) && (g != f || f !in q) ==> Once(q + [f], g)
    ensures forall g :: g != f && f !in q ==> Before(q + [f], g, f)
    ensures forall g, h :: Before(q, g, h) && g != f ==> Before(q + [f], g, h)
    ensures forall n :: 0 <= n <= |q| ==> (q + [f])[..n] == q[..n]
  {
  }

  lemma Dropped(q: seq<Functor>)
    requires |q| > 0
    ensures forall g :: g in q <==> g == q[0] || g in q[1..]
    ensures forall g :: Once(q, g) ==> Once(q[1..], g)
    ensures Once(q, q[0]) ==> q[0] !in q[1..]
    ensures forall g, h :: Before(q, g, h) ==> Before(q[1..], g, h)
    ensures forall g :: Before(q, g, q[0]) ==> g !in q
    ensures forall n, g :: 0 < n <= |q| && g in q[..n] && g != q[0] ==> g in q[1..][..n - 1]
  {
    forall g, h | Before(q, g, h) ensures Before(q[1..], g, h) {
      forall i, j | 0 <= i < |q[1..]| && 0 <= j < |q[1..]| && q[1..][i] == g && q[1..][j] == h ensures i < j {
        assert q[i + 1] == g && q[j + 1] == h;
      }
    }
    forall n, g | 0 < n <= |q| && g in q[..n] && g != q[0] ensures g in q[1..][..n - 1] {
      var i :| 0 <= i < n && q[i] == g;
      assert q[1..][..n - 1][i - 1] == g;
    }
  }

  /** Any state from which the source may call connect(2). */
  ghost predicate Ready(s: State) {
    && s.st.Disconnected? && s.channel.None? && !s.watched && s.timer.Off? && s.up.None?
    && ResetChannel !in s.queue && StartInLoop !in s.queue && StopInLoop !in s.queue
    && s.connect && s.started && !s.stopped
    && Ledger(s) && Backoff(s) && (s.phase.Draining? ==> s.phase.left <= |s.queue|)
    && forall i :: 0 <= i < |s.queue| && s.queue[i].CloseConnection? ==> s.handed[s.queue[i].fd] > 0
  }

  /** A new socket is held, or closed at once. */
  lemma LedgerNew(s: State, t: State)
    requires Ledger(s) && !s.st.Connecting? && t.created == s.created + 1 && t.handed == s.handed
    requires || (t.closed == s.closed && t.st.Connecting? && t.channel == Some(s.created))
             || (t.closed == s.closed + multiset{s.created} && !t.st.Connecting?)
    ensures Ledger(t)
  {
    forall fd: nat ensures t.closed[fd] + t.handed[fd] + Held(t, fd) == if fd < t.created then 1 else 0 {
      assert s.closed[fd] + s.handed[fd] + Held(s, fd) == if fd < s.created then 1 else 0;
    }
  }

  lemma ConnectInv(s: State, o: Outcome)
    requires Ready(s)
    ensures Inv(Connect(s, o))
  {
    NextDelay(|s.delays|);
    LedgerNew(s, Connect(s, o));
  }

  /** An attempt that fails at once leaves a channel that still waits for its reset alone. */
  lemma FailsAtOnceInv(s: State, o: Outcome)
    requires Inv(s) && s.phase.Handling? && s.timer.Pending? && s.connect
    requires ResetChannel in s.queue && !o.InProgress?
    ensures Inv(Connect(s.(timer := Off), o))
  {
    var t := s.(timer := Off);
    NextDelay(|s.delays|);
    assert Ledger(t) by {
      forall fd: nat ensures t.closed[fd] + t.handed[fd] + Held(t, fd) == if fd < t.created then 1 else 0 {
        assert s.closed[fd] + s.handed[fd] + Held(s, fd) == if fd < s.created then 1 else 0;
      }
    }
    LedgerNew(t, Connect(t, o));
  }

  lemma RestartReady(s: State)
    requires Ledger(s) && s.channel.None? && !s.watched && s.timer.Off? && s.up.None?
    requires ResetChannel !in s.queue && StartInLoop !in s.queue && StopInLoop !in s.queue && s.started && !s.stopped
    requires s.phase.Draining? ==> s.phase.left <= |s.queue|
    requires forall i :: 0 <= i < |s.queue| && s.queue[i].CloseConnection? ==> s.handed[s.queue[i].fd] > 0
    ensures forall o :: Inv(Restart(s, o))
  {
    NextDelay(0);
    var t := s.(st := Disconnected, retryDelayMs := INIT_RETRY_DELAY_MS, connect := true, delays := []);
    forall fd: nat ensures t.closed[fd] + t.handed[fd] + Held(t, fd) == if fd < t.created then 1 else 0 {
      assert s.closed[fd] + s.handed[fd] + Held(s, fd) == if fd < s.created then 1 else 0;
    }
    forall o ensures Inv(Restart(s, o)) {
      ConnectInv(t, o);
    }
  }

  /** The socket of the attempt under way has been settled, one way or the other. */
  lemma LedgerSettles(s: State, t: State)
    requires Ledger(s) && s.st.Connecting? && s.channel.Some? && !t.st.Connecting? && t.created == s.created
    requires || (t.closed == s.closed + multiset{s.channel.value} && t.handed == s.handed)
             || (t.closed == s.closed && t.handed == s.handed + multiset{s.channel.value})
    ensures Ledger(t)
  {
    forall fd: nat ensures t.closed[fd] + t.handed[fd] + Held(t, fd) == if fd < t.created then 1 else 0 {
      assert s.closed[fd] + s.handed[fd] + Held(s, fd) == if fd < s.created then 1 else 0;
    }
  }

  /** The attempt under way ends with its socket closed: by an error, or because the client stopped. */
  lemma AttemptFails(s: State, t: State)
    requires Ledger(s) && Backoff(s) && Channels(s) && Turns(s) && Starts(s)
    requires s.st.Connecting? && t == Retry(RemoveChannel(s), s.channel.value)
    requires s.phase.Handling? || s.stopped
    ensures Inv(t)
  {
    NextDelay(|s.delays|);
    Appended(s.queue, ResetChannel);
    LedgerSettles(s, t);
  }

  lemma AttemptSucceeds(s: State)
    requires Inv(s) && s.st.Connecting? && s.phase.Handling?
    ensures Inv(HandleWrite(s, false))
  {
    var t, fd := HandleWrite(s, false), s.channel.value;
    Appended(s.queue, ResetChannel);
    LedgerSettles(s, t);
    assert s.closed[fd] + s.handed[fd] + Held(s, fd) == if fd < s.created then 1 else 0;
  }

  lemma DispatchInv(s: State, e: Event)
    requires Inv(s) && Enabled(s, e) && e.Dispatch?
    ensures Inv(Apply(s, e))
  {
    AttemptFails(s, HandleError(s));
    AttemptSucceeds(s);
  }

  lemma CallsInv(s: State, e: Event)
    requires Inv(s) && Enabled(s, e) && (e.Start? || e.Stop? || e.ForceClose?)
    ensures Inv(Apply(s, e))
  {
    match e
    case Start(inLoop, o) =>
      if inLoop {
        ConnectInv(s.(connect := true, started := true), o);
      } else {
        Appended(s.queue, StartInLoop);
      }
    case Stop => Appended(s.queue, StopInLoop);
    case ForceClose =>
      Appended(s.queue, CloseConnection(s.up.value));
  }

  lemma EventsInv(s: State, e: Event)
    requires Inv(s) && Enabled(s, e) && ResetDone(s, e)
    requires e.TimerFires? || e.PeerCloses? || e.BeginDrain? || e.EndDrain?
    ensures Inv(Apply(s, e))
  {
    match e
    case TimerFires(o) =>
      if s.connect && ResetChannel in s.queue {
        FailsAtOnceInv(s, o);
      } else if s.connect {
        ConnectInv(s.(timer := Off), o);
      }
    case PeerCloses(retry, o) =>
      if retry && !s.stopped {
        RestartReady(s.(up := None));
      }
    case _ =>
  }

  lemma FunctorInv(s: State, e: Event)
    requires Inv(s) && Enabled(s, e) && e.RunFunctor?
    ensures Inv(Apply(s, e))
  {
    match s.queue[0]
    case StartInLoop => StartFunctorInv(s, e);
    case StopInLoop => StopFunctorInv(s, e);
    case ResetChannel => ResetFunctorInv(s, e);
    case CloseConnection(_) => CloseFunctorInv(s, e);
  }

  lemma StartFunctorInv(s: State, e: Event)
    requires Inv(s) && Enabled(s, e) && e.RunFunctor? && s.queue[0].StartInLoop?
    ensures Inv(Apply(s, e))
  {
    Dropped(s.queue);
    if s.connect {
      ConnectInv(Popped(s), e.o);
    }
  }

  lemma StopFunctorInv(s: State, e: Event)
    requires Inv(s) && Enabled(s, e) && e.RunFunctor? && s.queue[0].StopInLoop?
    ensures Inv(Apply(s, e))
  {
    var t := Popped(s);
    Dropped(s.queue);
    if s.st.Connecting? {
      AttemptFails(t, Retry(RemoveChannel(t), t.channel.value));
    }
  }

  lemma ResetFunctorInv(s: State, e: Event)
    requires Inv(s) && Enabled(s, e) && e.RunFunctor? && s.queue[0].ResetChannel?
    ensures Inv(Apply(s, e))
  {
    Dropped(s.queue);
  }

  lemma CloseFunctorInv(s: State, e: Event)
    requires Inv(s) && Enabled(s, e) && e.RunFunctor? && s.queue[0].CloseConnection?
    ensures Inv(Apply(s, e))
  {
    if s.up == Some(s.queue[0].fd) && e.retry && !s.stopped {
      CloseAndRestartInv(s, e);
    } else {
      CloseForGoodInv(s, e);
    }
  }

  lemma CloseAndRestartInv(s: State, e: Event)
    requires Inv(s) && Enabled(s, e) && e.RunFunctor? && s.queue[0].CloseConnection?
    requires s.up == Some(s.queue[0].fd) && e.retry && !s.stopped
    ensures Inv(Apply(s, e))
  {
    var t := Popped(s).(up := None);
    Dropped(s.queue);
    RestartReady(t);
    assert Apply(s, e) == Restart(t, e.o);
  }

  lemma CloseForGoodInv(s: State, e: Event)
    requires Inv(s) && Enabled(s, e) && e.RunFunctor? && s.queue[0].CloseConnection?
    requires !(s.up == Some(s.queue[0].fd) && e.retry && !s.stopped)
    ensures Inv(Apply(s, e))
  {
    var t := Popped(s);
    if s.up == Some(s.queue[0].fd) {
      Dropped(s.queue);
      OtherFunctorInv(s, t);
      NoLongerUp(t);
    } else {
      OtherFunctorInv(s, t);
    }
  }

  lemma NoLongerUp(t: State)
    requires Inv(t) && t.up.Some?
    ensures Inv(t.(up := None, over := true))
  {
  }

  lemma OtherFunctorInv(s: State, t: State)
    requires Inv(s) && s.phase.Draining? && 0 < s.phase.left <= |s.queue| && t == Popped(s)
    requires s.queue[0].CloseConnection? && (s.up == Some(s.queue[0].fd) ==> ResetChannel !in s.queue || s.stopped)
    ensures Inv(t)
  {
    Dropped(s.queue);
  }

  lemma InvStep(s: State, e: Event)
    requires Inv(s) && Enabled(s, e) && ResetDone(s, e)
    ensures Inv(Apply(s, e))
  {
    match e
    case Start(_, _) => CallsInv(s, e);
    case Stop => CallsInv(s, e);
    case ForceClose => CallsInv(s, e);
    case Dispatch(_, _, _) => DispatchInv(s, e);
    case RunFunctor(_, _) => FunctorInv(s, e);
    case _ => EventsInv(s, e);
  }

  // ---- every run ----

  lemma InitInv()
    ensures Inv(Init())
  {
    NextDelay(0);
  }

  lemma {:induction false} ReachInv(s: State, es: seq<Event>, t: State)
    requires Inv(s) && Reach(s, es, t)
    ensures Inv(t)
    decreases |es|
  {
    if |es| > 0 {
      InvStep(s, es[0]);
      ReachInv(Apply(s, es[0]), es[1..], t);
    }
  }

  lemma InvAsserted(s: State, e: Event)
    requires Inv(s) && Enabled(s, e) && ResetDone(s, e)
    ensures Asserted(s, e)
  {
    if e.RunFunctor? {
      Dropped(s.queue);
    }
  }

  /** The channel is null each time connecting starts: the deferred reset has run. */
  lemma AssertionsHold(es: seq<Event>, t: State, e: Event)
    requires Reach(Init(), es, t) && Enabled(t, e) && ResetDone(t, e)
    ensures Asserted(t, e)
  {
    InitInv();
    ReachInv(Init(), es, t);
    InvAsserted(t, e);
  }

  /** They fail exactly when a retry timer fires while a connection is wanted and the channel of the
      failed attempt still waits for its reset, and the new attempt does not fail at once. */
  lemma WhenAssertionsHold(es: seq<Event>, t: State, e: Event)
    requires Reach(Init(), es, t) && Enabled(t, e)
    ensures Asserted(t, e) <==> !(e.TimerFires? && t.connect && ResetChannel in t.queue && e.o.InProgress?)
  {
    InitInv();
    ReachInv(Init(), es, t);
    InvAssertedExactly(t, e);
  }

  lemma InvAssertedExactly(s: State, e: Event)
    requires Inv(s) && Enabled(s, e)
    ensures Asserted(s, e) <==> ResetDone(s, e)
  {
    if ResetDone(s, e) {
      InvAsserted(s, e);
    }
  }

  lemma {:induction false} AssertedRuns(s: State, es: seq<Event>, t: State)
    requires Inv(s) && Happens(s, es, t)
    ensures AllAsserted(s, es) <==> Reach(s, es, t)
    decreases |es|
  {
    if |es| > 0 {
      InvAssertedExactly(s, es[0]);
      if ResetDone(s, es[0]) {
        InvStep(s, es[0]);
        AssertedRuns(Apply(s, es[0]), es[1..], t);
      }
    }
  }

  /** Of all runs, with timers firing whenever they like, the ones that meet every assertion are
      exactly those in which no wanted timer overtakes the reset to start an attempt that does not fail
      at once. */
  lemma RunsMeetAssertions(es: seq<Event>, t: State)
    requires Happens(Init(), es, t)
    ensures AllAsserted(Init(), es) <==> Reach(Init(), es, t)
  {
    InitInv();
    AssertedRuns(Init(), es, t);
  }

  lemma {:induction false} PatientFrom(s: State, es: seq<Event>, t: State)
    requires Inv(s) && Happens(s, es, t) && NoYoungTimer(s, es)
    ensures Reach(s, es, t)
    decreases |es|
  {
    if |es| > 0 {
      InvStep(s, es[0]);
      PatientFrom(Apply(s, es[0]), es[1..], t);
    }
  }

  /** It is enough that no timer fires in the phase that set it. */
  lemma PatientRunsMeetAssertions(es: seq<Event>, t: State)
    requires Happens(Init(), es, t) && NoYoungTimer(Init(), es)
    ensures Reach(Init(), es, t) && AllAsserted(Init(), es)
  {
    InitInv();
    PatientFrom(Init(), es, t);
    RunsMeetAssertions(es, t);
  }

  lemma EarlyTimerBreaksAssertion()
    ensures
      var t := Apply(Apply(Init(), Start(true, InProgress)), Dispatch(true, false, false));
      && Reach(Init(), [Start(true, InProgress), Dispatch(true, false, false)], t)
      && Enabled(t, TimerFires(InProgress)) && !Asserted(t, TimerFires(InProgress))
  {
    var es := [Start(true, InProgress), Dispatch(true, false, false)];
    var s := Apply(Init(), es[0]);
    assert es[1..] == [es[1]] && es[1..][1..] == [];
    assert Reach(Apply(s, es[1]), [], Apply(s, es[1]));
  }

  /** A timer as early as that breaks nothing if its attempt fails at once. */
  lemma EarlyTimerMayBeHarmless()
    ensures
      var es := [Start(true, InProgress), Dispatch(true, false, false), TimerFires(TryLater)];
      exists t :: Reach(Init(), es, t) && AllAsserted(Init(), es) && ResetChannel in t.queue && t.timer.Pending?
  {
    var es := [Start(true, InProgress), Dispatch(true, false, false), TimerFires(TryLater)];
    var s := Apply(Apply(Init(), es[0]), es[1]);
    var t := Apply(s, es[2]);
    assert es[1..][1..] == [es[2]] && es[1..][1..][1..] == [];
    assert Reach(t, [], t) && Happens(t, [], t);
    RunsMeetAssertions(es, t);
  }

  // ---- what becomes of an attempt ----

  /** connect(2) is called on a new socket. Under way, it is the one that is held and watched. */
  lemma AttemptGoesOn(s: State)
    ensures var u, fd := Connect(s, InProgress), s.created;
            && u.st == Connecting && u.channel == Some(fd) && u.watched && u.created == fd + 1
            && u.closed == s.closed && u.handed == s.handed && u.queue == s.queue
            && u.timer == s.timer && u.delays == s.delays && u.up == s.up && u.over == s.over && u.connect == s.connect
  {
  }

  /** Worth another try, it is closed, and a timer is set for that if a connection is wanted. */
  lemma AttemptIsPutOff(s: State)
    ensures var u, fd := Connect(s, TryLater), s.created;
            && u.st == Disconnected && u.channel == s.channel && u.watched == s.watched && u.created == fd + 1
            && u.closed == s.closed + multiset{fd} && u.handed == s.handed && u.queue == s.queue
            && u.timer == (if s.connect then Pending(s.phase.Handling?) else s.timer)
            && u.delays == (s.delays + if s.connect then [s.retryDelayMs] else [])
            && u.up == s.up && u.over == s.over && u.connect == s.connect
  {
  }

  /** Hopeless, it is closed and that is all. */
  lemma AttemptIsHopeless(s: State)
    ensures var u, fd := Connect(s, Hopeless), s.created;
            && u.st == s.st && u.channel == s.channel && u.watched == s.watched && u.created == fd + 1
            && u.closed == s.closed + multiset{fd} && u.handed == s.handed && u.queue == s.queue
            && u.timer == s.timer && u.delays == s.delays && u.up == s.up && u.over && u.connect == s.connect
  {
  }

  /** An event on the socket of the attempt under way. It is handed over exactly if it is writable
      without any error and still wanted. An error of either kind closes it, and a timer is set for the
      next try exactly if a connection is wanted; a good socket that nobody wants is closed too. */
  lemma AttemptEnds(es: seq<Event>, t: State, error: bool, writable: bool, soError: bool, fd: nat)
    requires Reach(Init(), es, t) && Enabled(t, Dispatch(error, writable, soError)) && t.channel == Some(fd)
    ensures var u, good, bad := Apply(t, Dispatch(error, writable, soError)),
                                writable && !error && !soError, error || (writable && soError);
            && u.handed == (if good && t.connect then t.handed + multiset{fd} else t.handed)
            && u.closed == (if bad || (good && !t.connect) then t.closed + multiset{fd} else t.closed)
            && u.created == t.created && u.connect == t.connect
            && (good ==> u.st == Connected && u.timer == t.timer && u.up == if t.connect then Some(fd) else t.up)
            && (bad ==> && u.st == Disconnected && u.up == t.up
                        && (u.timer.Pending? <==> t.connect)
                        && u.delays == t.delays + if t.connect then [t.retryDelayMs] else [])
            && (if good || bad then !u.watched && u.queue == t.queue + [ResetChannel] else u == t)
  {
    InitInv();
    ReachInv(Init(), es, t);
  }

  /** A timer starts an attempt if a connection is still wanted, and nothing else. */
  lemma TimerTries(t: State, o: Outcome)
    requires Enabled(t, TimerFires(o))
    ensures Apply(t, TimerFires(o)) == if t.connect then Connect(t.(timer := Off), o) else t.(timer := Off)
  {
  }

  /** When its connection closes, a client that wants another one starts over: at once, and with the
      first delay. A client that does not, or that has been stopped, is done. */
  lemma ClosingStartsOver(t: State, retry: bool, o: Outcome)
    requires Enabled(t, PeerCloses(retry, o))
    ensures var u := Apply(t, PeerCloses(retry, o));
            if retry && !t.stopped then
              u == Connect(t.(up := None, st := Disconnected, retryDelayMs := 500, connect := true, delays := []), o)
            else u == t.(up := None, over := true)
  {
  }

  /** A close asked for comes about in the drain after it, and the client starts over if it wants to,
      unless the connection has closed meanwhile. */
  lemma QueuedCloseRuns(t: State, retry: bool, o: Outcome)
    requires Enabled(t, RunFunctor(retry, o)) && t.queue[0].CloseConnection?
    ensures var u, p := Apply(t, RunFunctor(retry, o)), t.(queue := t.queue[1..], phase := Draining(t.phase.left - 1));
            if t.up != Some(t.queue[0].fd) then u == p
            else if retry && !t.stopped then
              u == Connect(p.(up := None, st := Disconnected, retryDelayMs := 500, connect := true, delays := []), o)
            else u == p.(up := None, over := true)
  {
  }

  /** stop: nothing more is wanted from now on, and the drain after it ends an attempt under way, whose
      socket is closed and not tried again. */
  lemma StopEndsTheAttempt(es: seq<Event>, t: State, retry: bool, o: Outcome)
    requires Reach(Init(), es, t) && Enabled(t, RunFunctor(retry, o)) && t.queue[0].StopInLoop?
    ensures var u := Apply(t, RunFunctor(retry, o));
            && u.created == t.created && u.handed == t.handed
            && if t.st.Connecting? then
                 && t.channel.Some? && u.closed == t.closed + multiset{t.channel.value}
                 && u.st == Disconnected && u.timer.Off? && !u.watched && u.queue == t.queue[1..] + [ResetChannel]
               else u == t.(queue := t.queue[1..], phase := u.phase)
  {
    InitInv();
    ReachInv(Init(), es, t);
    assert StopInLoop in t.queue;
  }

  lemma StopIsQueued(t: State)
    ensures Apply(t, Stop) == t.(connect := false, stopped := true, queue := t.queue + [StopInLoop])
  {
  }

  /** In the loop a start attempts a connection at once, elsewhere in the next drain, if it is still
      wanted then. */
  lemma StartConnects(t: State, inLoop: bool, o: Outcome)
    requires Enabled(t, Start(inLoop, o))
    ensures var m := t.(connect := true, started := true);
            Apply(t, Start(inLoop, o)) == if inLoop then Connect(m, o) else m.(queue := t.queue + [StartInLoop])
  {
  }

  lemma QueuedStartRuns(t: State, retry: bool, o: Outcome)
    requires Enabled(t, RunFunctor(retry, o)) && t.queue[0].StartInLoop?
    ensures var p := t.(queue := t.queue[1..], phase := Draining(t.phase.left - 1));
            Apply(t, RunFunctor(retry, o)) == if t.connect then Connect(p, o) else p
  {
  }

  /** The deferred reset frees the channel and does nothing else. */
  lemma QueuedResetRuns(t: State, retry: bool, o: Outcome)
    requires Enabled(t, RunFunctor(retry, o)) && t.queue[0].ResetChannel?
    ensures Apply(t, RunFunctor(retry, o))
            == t.(queue := t.queue[1..], phase := Draining(t.phase.left - 1), channel := None)
  {
  }

  /** Each socket is closed once, handed over once, or held while connecting, and never two of these. */
  lemma SocketsAccounted(es: seq<Event>, t: State, fd: nat)
    requires Reach(Init(), es, t)
    ensures t.closed[fd] + t.handed[fd] + Held(t, fd) == if fd < t.created then 1 else 0
    ensures t.st.Connecting? ==> t.channel.Some? && Held(t, t.channel.value) == 1
  {
    InitInv();
    ReachInv(Init(), es, t);
    assert t.st.Connecting? ==> t.closed[t.channel.value] + t.handed[t.channel.value] + Held(t, t.channel.value) >= 1;
  }

  /** Since the last restart the delays are 500, 1000, 2000, ... up to 30 seconds. */
  lemma DelaysDouble(es: seq<Event>, t: State, k: nat)
    requires Reach(Init(), es, t) && k < |t.delays|
    ensures t.delays[k] == Min(500 * Pow2(k), 30000)
    ensures t.retryDelayMs == Min(500 * Pow2(|t.delays|), 30000)
  {
    InitInv();
    ReachInv(Init(), es, t);
  }

  /** Until told to stop, a started connector is connected, connecting or has a retry pending. */
  lemma KeepsTrying(es: seq<Event>, t: State)
    requires Reach(Init(), es, t) && t.started && !t.stopped && !t.over
    ensures t.up.Some? || t.st.Connecting? || t.timer.Pending? || StartInLoop in t.queue
  {
    InitInv();
    ReachInv(Init(), es, t);
    ReachStarted(Init(), es, t);
  }

  predicate Wants(s: State) {
    s.started && !s.stopped ==> s.connect
  }

  lemma WantsStart(s: State, o: Outcome)
    requires Wants(s)
    ensures Wants(StartIn(s, o))
  {
  }

  lemma WantsHandlers(s: State, soError: bool)
    requires Wants(s)
    ensures Wants(HandleError(s)) && Wants(StopIn(s)) && Wants(HandleWrite(s, soError))
  {
  }

  lemma WantsClose(s: State, retry: bool, o: Outcome)
    requires Wants(s)
    ensures Wants(ConnectionCloses(s, retry, o))
  {
  }

  lemma WantsFunctor(s: State, f: Functor, retry: bool, o: Outcome)
    requires Wants(s)
    ensures Wants(RunHead(s, f, retry, o))
  {
    match f
    case StartInLoop => WantsStart(s, o);
    case StopInLoop => WantsHandlers(s, false);
    case ResetChannel =>
    case CloseConnection(_) => WantsClose(s, retry, o);
  }

  lemma StartedStep(s: State, e: Event)
    requires Enabled(s, e) && Wants(s)
    ensures Wants(Apply(s, e))
  {
    match e
    case Start(_, o) => WantsStart(s.(connect := true, started := true), o);
    case Dispatch(_, _, soError) =>
      WantsHandlers(s, soError);
      WantsHandlers(HandleError(s), soError);
    case TimerFires(o) => WantsStart(s.(timer := Off), o);
    case PeerCloses(retry, o) => WantsClose(s, retry, o);
    case RunFunctor(retry, o) => WantsFunctor(Popped(s), s.queue[0], retry, o);
    case _ =>
  }

  lemma {:induction false} ReachStarted(s: State, es: seq<Event>, t: State)
    requires Reach(s, es, t) && Wants(s)
    ensures Wants(t)
    decreases |es|
  {
    if |es| > 0 {
      StartedStep(s, es[0]);
      ReachStarted(Apply(s, es[0]), es[1..], t);
    }
  }

  /** Stopped, and with the sockets of s. */
  predicate Frozen(s: State, t: State) {
    t.stopped && !t.connect && t.created == s.created && t.handed == s.handed
  }

  lemma FrozenHandlers(s: State, t: State, soError: bool)
    requires Frozen(s, t)
    ensures Frozen(s, HandleError(t)) && Frozen(s, HandleWrite(t, soError)) && Frozen(s, StopIn(t))
  {
  }

  lemma FrozenFunctor(s: State, t: State, f: Functor, retry: bool, o: Outcome)
    requires Frozen(s, t)
    ensures Frozen(s, RunHead(t, f, retry, o))
  {
    FrozenHandlers(s, t, false);
  }

  lemma StoppedStep(s: State, e: Event)
    requires Inv(s) && Enabled(s, e) && s.stopped
    ensures Frozen(s, Apply(s, e))
  {
    match e
    case Dispatch(error, _, soError) =>
      FrozenHandlers(s, s, soError);
      FrozenHandlers(s, HandleError(s), soError);
    case RunFunctor(retry, o) => FrozenFunctor(s, Popped(s), s.queue[0], retry, o);
    case _ =>
  }

  /** After stop no socket is created or handed over any more, a pending retry timer notwithstanding. */
  lemma {:induction false} StopIsFinal(s: State, es: seq<Event>, t: State)
    requires Inv(s) && Reach(s, es, t) && s.stopped
    ensures t.stopped && t.created == s.created && t.handed == s.handed
    decreases |es|
  {
    if |es| > 0 {
      StoppedStep(s, es[0]);
      InvStep(s, es[0]);
      StopIsFinal(Apply(s, es[0]), es[1..], t);
    }
  }

  /** Once stopInLoop has run, every socket not handed over is closed. */
  lemma StopCleansUp(es: seq<Event>, t: State, fd: nat)
    requires Reach(Init(), es, t) && t.stopped && StopInLoop !in t.queue && fd < t.created
    ensures t.closed[fd] + t.handed[fd] == 1
  {
    InitInv();
    ReachInv(Init(), es, t);
    assert t.closed[fd] + t.handed[fd] + Held(t, fd) == 1;
  }
}
