/** The timer queue as written. Each operation is proved to be the matching step of TimerModel;
    each heap access proves that its timer is still alive. */
module TimerQueues {
  import opened Bounds
  import opened TimerModel
  import opened TimerIndex

  /** What a callback, or another thread while it runs, may do to the queue. */
  datatype CallbackOp =
    | AddTimer(when: int, interval: int)
    | CreateElsewhere(when: int, interval: int)
    | CancelTimer(id: TimerId)
    | TimePasses(dt: nat)

  /** What can happen to a queue between two alarms, and an alarm with what its callbacks do. */
  datatype Happening =
    | Op(op: CallbackOp)
    | InsertQueued(timer: int)
    | AlarmFires(lag: nat, script: seq<seq<CallbackOp>>)

  ghost predicate ByCallbacks(es: seq<Event>) {
    forall i :: 0 <= i < |es| ==> es[i].Tick? || es[i].Create? || es[i].Add? || es[i].Cancel?
  }

  /** The batch in flight, how far it has got, and the log are as before. */
  ghost predicate SamePhase(s: State, t: State) {
    && t.log == s.log && t.phase.Firing? == s.phase.Firing?
    && (s.phase.Firing? ==>
          t.phase.now == s.phase.now && t.phase.batch == s.phase.batch && t.phase.done == s.phase.done)
  }

  /** Numbers up to n are issued as before. */
  ghost predicate Extends(was: map<int, int>, now: map<int, int>, n: int) {
    && (forall q :: q in was ==> q in now && now[q] == was[q])
    && (forall q :: q in now && q <= n ==> q in was)
  }

  /** Addresses are left as long as fewer timers have ever been made. */
  predicate HasRoom(created: int) {
    created < UINTPTR_MAX - 1
  }

  function Creates(op: CallbackOp): nat {
    if op.AddTimer? || op.CreateElsewhere? then 1 else 0
  }

  /** What an operation asks for, when n timers have been made, at the addresses in issued. A cancel with
      an id whose address has gone to another timer asks for nothing. */
  function EventsOf(op: CallbackOp, n: int, issued: map<int, int>): seq<Event> {
    match op
    case AddTimer(when, interval) => [Create(when, interval)] + [Add(n + 1)]
    case CreateElsewhere(when, interval) => [Create(when, interval)]
    case CancelTimer(id) =>
      if id.sequence in issued && issued[id.sequence] == id.timer then [Cancel(id.sequence)] else []
    case TimePasses(dt) => [Tick(dt)]
  }

  /** The part of a run that one operation has brought; n and issued are from the moment before it. */
  datatype Part = Part(es: seq<Event>, n: int, issued: map<int, int>)

  ghost predicate Brought(op: CallbackOp, part: Part, n: int, issued: map<int, int>, created: int) {
    && part.es == EventsOf(op, part.n, part.issued)
    && n <= part.n <= created && Extends(part.issued, issued, part.n)
  }

  /** Every operation has brought what it asks for, from when n timers had been made. */
  ghost predicate AllBrought(ops: seq<CallbackOp>, parts: seq<Part>, n: int, issued: map<int, int>, created: int) {
    |parts| == |ops| && forall i :: 0 <= i < |ops| ==> Brought(ops[i], parts[i], n, issued, created)
  }

  lemma StillBrought(ops: seq<CallbackOp>, parts: seq<Part>, n: int, was: map<int, int>, now: map<int, int>,
                     mid: int, created: int)
    requires AllBrought(ops, parts, n, was, mid) && Extends(was, now, mid) && mid <= created
    ensures AllBrought(ops, parts, n, now, created)
  {
  }

  function Together(parts: seq<Part>): seq<Event> {
    if |parts| == 0 then [] else Together(parts[..|parts| - 1]) + parts[|parts| - 1].es
  }

  lemma OnePartMore(parts: seq<Part>, part: Part)
    ensures Together(parts + [part]) == Together(parts) + part.es
  {
    assert (parts + [part])[..|parts|] == parts;
  }

  /** What the i-th callback of an alarm does. */
  function During(script: seq<seq<CallbackOp>>, i: nat): seq<CallbackOp> {
    if i < |script| then script[i] else []
  }

  /** The callbacks of an alarm, one after the other, each with what it brings. */
  ghost predicate AllCalled(script: seq<seq<CallbackOp>>, calls: seq<seq<Part>>, n: int,
                            issued: map<int, int>, created: int) {
    forall i :: 0 <= i < |calls| ==> AllBrought(During(script, i), calls[i], n, issued, created)
  }

  lemma StillCalled(script: seq<seq<CallbackOp>>, calls: seq<seq<Part>>, n: int, was: map<int, int>, now: map<int, int>,
                    mid: int, created: int)
    requires AllCalled(script, calls, n, was, mid) && Extends(was, now, mid) && mid <= created
    ensures AllCalled(script, calls, n, now, created)
  {
    forall i | 0 <= i < |calls|
      ensures AllBrought(During(script, i), calls[i], n, now, created)
    {
      StillBrought(During(script, i), calls[i], n, was, now, mid, created);
    }
  }

  lemma OneOpMore(ops: seq<CallbackOp>, i: nat, parts: seq<Part>, part: Part, n: int,
                  was: map<int, int>, now: map<int, int>, mid: int, created: int)
    requires i < |ops| && AllBrought(ops[..i], parts, n, was, mid) && Extends(was, now, mid) && n <= mid <= created
    requires part == Part(EventsOf(ops[i], mid, was), mid, was)
    ensures AllBrought(ops[..i + 1], parts + [part], n, now, created)
    ensures Together(parts + [part]) == Together(parts) + part.es
  {
    StillBrought(ops[..i], parts, n, was, now, mid, created);
    OnePartMore(parts, part);
    assert ops[..i + 1] == ops[..i] + [ops[i]];
  }

  /** As long as there is room for timers, es is what the callbacks so far have brought. */
  ghost predicate CallsSoFar(script: seq<seq<CallbackOp>>, i: nat, es: seq<Event>, calls: seq<seq<Part>>, n: int,
                             issued: map<int, int>, created: int) {
    |calls| == i && (HasRoom(created) ==> AllCalled(script, calls, n, issued, created) && es == Callbacks(calls))
  }

  lemma OneCallDone(script: seq<seq<CallbackOp>>, i: nat, es: seq<Event>, calls: seq<seq<Part>>, more: seq<Event>,
                    call: seq<Part>, n: int, was: map<int, int>, now: map<int, int>, mid: int, created: int)
    requires CallsSoFar(script, i, es, calls, n, was, mid) && Extends(was, now, mid) && n <= mid <= created
    requires HasRoom(created) ==>
               more == [RunNext] + Together(call) && AllBrought(During(script, i), call, mid, now, created)
    ensures CallsSoFar(script, i + 1, es + more, calls + [call], n, now, created)
  {
    if HasRoom(created) {
      StillCalled(script, calls, n, was, now, mid, created);
      BroughtSince(During(script, i), call, n, mid, now, created);
      OneMoreCalled(script, calls, call, n, now, created);
      OneCallMore(calls, call);
    }
  }

  lemma BroughtSince(ops: seq<CallbackOp>, parts: seq<Part>, n: int, m: int, issued: map<int, int>, created: int)
    requires AllBrought(ops, parts, m, issued, created) && n <= m
    ensures AllBrought(ops, parts, n, issued, created)
  {
  }

  lemma OneMoreCalled(script: seq<seq<CallbackOp>>, calls: seq<seq<Part>>, call: seq<Part>, n: int,
                      issued: map<int, int>, created: int)
    requires AllCalled(script, calls, n, issued, created)
    requires AllBrought(During(script, |calls|), call, n, issued, created)
    ensures AllCalled(script, calls + [call], n, issued, created)
  {
    var more := calls + [call];
    forall i | 0 <= i < |more|
      ensures AllBrought(During(script, i), more[i], n, issued, created)
    {
      if i < |calls| {
        assert more[i] == calls[i];
      }
    }
  }

  function Callbacks(calls: seq<seq<Part>>): seq<Event> {
    if |calls| == 0 then [] else Callbacks(calls[..|calls| - 1]) + ([RunNext] + Together(calls[|calls| - 1]))
  }

  lemma OneCallMore(calls: seq<seq<Part>>, call: seq<Part>)
    ensures Callbacks(calls + [call]) == Callbacks(calls) + ([RunNext] + Together(call))
  {
    assert (calls + [call])[..|calls|] == calls;
  }

  /** What has come of a happening. */
  datatype Deed =
    | Did(part: Part)
    | Inserted(es: seq<Event>, timer: int, issued: map<int, int>)
    | Rang(batch: seq<Due>, lag: nat, calls: seq<seq<Part>>)

  function Done(d: Deed): seq<Event> {
    match d
    case Did(part) => part.es
    case Inserted(es, _, _) => es
    case Rang(batch, lag, calls) => [Begin(batch, lag)] + (Callbacks(calls) + [Finish])
  }

  /** It is what was asked for, in full. */
  ghost predicate Answers(h: Happening, d: Deed, n: int, issued: map<int, int>, created: int) {
    match h
    case Op(op) => d.Did? && Brought(op, d.part, n, issued, created)
    // the functor has run already, or inserts the timer that lives at that address
    case InsertQueued(timer) =>
      && d.Inserted?
      && (d.es == [] || (|d.es| == 1 && d.es[0].Add? && d.es[0].id in issued && issued[d.es[0].id] == timer))
    case AlarmFires(lag, script) =>
      d.Rang? && d.lag == lag && |d.calls| == |d.batch| && AllCalled(script, d.calls, n, issued, created)
  }

  ghost predicate AllAnswered(script: seq<Happening>, deeds: seq<Deed>, n: int, issued: map<int, int>, created: int) {
    |deeds| == |script| && forall i :: 0 <= i < |script| ==> Answers(script[i], deeds[i], n, issued, created)
  }

  lemma StillAnswers(h: Happening, d: Deed, n: int, m: int, was: map<int, int>, now: map<int, int>,
                     mid: int, created: int)
    requires Answers(h, d, m, was, mid) && n <= m && Extends(was, now, mid) && mid <= created
    ensures Answers(h, d, n, now, created)
  {
    if h.AlarmFires? {
      StillCalled(h.script, d.calls, m, was, now, mid, created);
    }
  }

  function AllDone(deeds: seq<Deed>): seq<Event> {
    if |deeds| == 0 then [] else AllDone(deeds[..|deeds| - 1]) + Done(deeds[|deeds| - 1])
  }

  /** As long as there is room for timers, es is what the happenings so far have brought. */
  ghost predicate DeedsSoFar(script: seq<Happening>, es: seq<Event>, deeds: seq<Deed>, n: int,
                             issued: map<int, int>, created: int) {
    HasRoom(created) ==> AllAnswered(script, deeds, n, issued, created) && es == AllDone(deeds)
  }

  lemma OneDeedMore(script: seq<Happening>, i: nat, es: seq<Event>, deeds: seq<Deed>, more: seq<Event>, d: Deed,
                    n: int, was: map<int, int>, now: map<int, int>, mid: int, created: int)
    requires i < |script| && DeedsSoFar(script[..i], es, deeds, n, was, mid)
    requires Extends(was, now, mid) && n <= mid <= created
    requires HasRoom(created) ==> more == Done(d) && Answers(script[i], d, mid, now, created)
    ensures DeedsSoFar(script[..i + 1], es + more, deeds + [d], n, now, created)
  {
    if HasRoom(created) {
      assert (deeds + [d])[..|deeds|] == deeds;
      StillAnswers(script[i], d, n, mid, now, now, created, created);
      forall k | 0 <= k < i
        ensures Answers(script[k], deeds[k], n, now, created)
      {
        assert script[..i][k] == script[k];
        StillAnswers(script[k], deeds[k], n, n, was, now, mid, created);
      }
    }
  }

  lemma ExtendsOn(a: map<int, int>, b: map<int, int>, c: map<int, int>, n: int, m: int)
    requires Extends(a, b, n) && Extends(b, c, m) && n <= m
    ensures Extends(a, c, n)
  {
  }

  /** Fewer than n numbers name no more than n addresses. */
  lemma {:induction false} Pigeons(n: nat, c: int, number: map<int, int>)
    requires forall a :: 0 < a <= n ==> a in number && 1 <= number[a] <= c
    requires forall a, b :: 0 < a < b <= n ==> number[a] != number[b]
    ensures n <= c || n == 0
    decreases n
  {
    if n > 0 {
      // take the last address out, and close the gap its number leaves
      var gap := number[n];
      Pigeons(n - 1, c - 1, map a | a in number :: if number[a] > gap then number[a] - 1 else number[a]);
    }
  }

  lemma RoomIsLeft(heap: map<int, TimerObject>, issued: map<int, int>, live: map<int, int>, created: int)
    requires HeapOk(heap, issued, live) && HasRoom(created)
    requires forall q :: q in issued ==> 1 <= q <= created
    ensures exists a :: 0 < a < UINTPTR_MAX && a !in heap
  {
    if forall a :: 0 < a < UINTPTR_MAX ==> a in heap {
      var number := map a | a in heap :: heap[a].sequence;
      forall a, b | 0 < a < b < UINTPTR_MAX
        ensures number[a] != number[b]
      {
        assert issued[number[a]] == a && issued[number[b]] == b;
      }
      Pigeons(UINTPTR_MAX - 1, created, number);
    }
  }

  /** The entries before the sentry, in order: begin() up to lower_bound(sentry). */
  method UpTo(timers: set<Entry>, sentry: Entry) returns (expired: seq<Entry>)
    ensures forall e :: e in expired <==> e in timers && Less(e, sentry)
    ensures forall i, j :: 0 <= i < j < |expired| ==> Less(expired[i], expired[j])
  {
    expired := [];
    var rest := timers;
    while rest != {}
      invariant rest <= timers
      invariant forall e :: e in expired ==> e in timers && Less(e, sentry) && e !in rest
      invariant forall i, j :: 0 <= i < j < |expired| ==> Less(expired[i], expired[j])
      invariant forall d, e :: d in expired && e in rest ==> Less(d, e)
      invariant forall e :: e in timers ==> e in rest || e in expired
      decreases rest
    {
      var e := First(rest);
      if !Less(e, sentry) {
        break;
      }
      expired := expired + [e];
      rest := rest - {e};
    }
  }

  /** howMuchTimeFromNow, then timerfd_settime with the relative time */
  method ResetTimerfd(when: int, now: int) returns (alarm: Alarm)
    ensures alarm == Arm(when, now)
    ensures alarm.Armed? && alarm.armedAt == now && alarm.deadline == Max(when, now + MIN_DELAY)
  {
    var microseconds := when - now;
    if microseconds < MIN_DELAY {
      microseconds := MIN_DELAY;
    }
    alarm := Armed(now + microseconds, now);
  }

  class TimerQueue {
    var heap: map<int, TimerObject>
    var numCreated: int
    var timers: set<Entry>
    var active: set<TimerId>
    var callingExpired: bool
    var canceling: set<TimerId>
    var alarm: Alarm
    var clock: int

    // The machine state, the address each number was issued with, the live timers.
    ghost var s: State
    ghost var issued: map<int, int>
    ghost var live: map<int, int>

    ghost predicate Coupled()
      reads this
    {
      && Placed(s)
      && s.clock == clock && s.alarm == alarm && s.created == numCreated
      && Represents(heap, timers, active, issued, live, s)
    }

    ghost predicate Valid()
      reads this
    {
      && Coupled()
      && callingExpired == s.phase.Firing?
      && CancelsMatch(canceling, issued, s)
    }

    ghost predicate Genuine(id: TimerId)
      reads this
    {
      id.sequence in issued && issued[id.sequence] == id.timer
    }

    constructor (now: int)
      requires now > 0
      ensures Valid() && s == Init(now)
    {
      heap, numCreated, timers, active := map[], 0, {}, {};
      callingExpired, canceling, alarm, clock := false, {}, Disarmed, now;
      s, issued, live := Init(now), map[], map[];
    }

    // ---- one operation at a time ----

    /** new Timer: any free address will do, including one a dead timer had. */
    method NewTimer(address: int, when: int, interval: int) returns (id: TimerId)
      requires Valid() && 0 < address < UINTPTR_MAX && address !in heap
      modifies this
      ensures Valid() && s == Apply(old(s), Create(when, interval))
      ensures id == TimerId(address, s.created) && Genuine(id)
      ensures Extends(old(issued), issued, old(s.created))
      ensures issued == old(issued)[id.sequence := address]
    {
      AfterCreate(heap, timers, active, issued, live, canceling, s, address, numCreated + 1, when, interval);
      Allocate(address, when, interval);
      id := TimerId(address, numCreated);
      Advance(Create(when, interval));
    }

    method Allocate(address: int, when: int, interval: int)
      modifies this`numCreated, this`heap, this`issued, this`live
      ensures numCreated == old(numCreated) + 1
      ensures heap == old(heap)[address := TimerObject(when, interval, numCreated)]
      ensures issued == old(issued)[numCreated := address] && live == old(live)[numCreated := when]
    {
      numCreated := numCreated + 1;
      heap := heap[address := TimerObject(when, interval, numCreated)];
      issued := issued[numCreated := address];
      live := live[numCreated := when];
    }

    /** Put one live timer, in neither set so far, into both. */
    method Insert(timer: int, ghost queue: map<int, int>) returns (earliestChanged: bool)
      requires Indexed(timers, active, heap, issued, queue) && timer in heap
      requires heap[timer].sequence in issued && issued[heap[timer].sequence] == timer
      requires heap[timer].sequence !in queue
      modifies this`timers, this`active
      ensures timers == old(timers) + {Entry(heap[timer].expiration, timer)}
      ensures active == old(active) + {TimerId(timer, heap[timer].sequence)}
      ensures earliestChanged <==> queue == map[] || heap[timer].expiration < Earliest(queue)
    {
      HeadIsEarliest(timers, active, heap, issued, queue);
      var when := heap[timer].expiration;
      if timers == {} {
        earliestChanged := true;
      } else {
        var first := First(timers);
        earliestChanged := when < first.when;
      }
      timers := timers + {Entry(when, timer)};
      active := active + {TimerId(timer, heap[timer].sequence)};
    }

    method AddTimerInLoop(timer: int)
      requires Valid() && timer in heap && heap[timer].sequence in s.pending
      modifies this`timers, this`active, this`alarm, this`s
      ensures Valid() && s == Apply(old(s), Add(old(heap[timer].sequence)))
    {
      InsertAndArm(timer);
      AfterAdd(heap, old(timers), old(active), issued, live, canceling, s, timer);
      Advance(Add(heap[timer].sequence));
    }

    /** The machine takes its step. */
    ghost method Advance(e: Event)
      requires Enabled(s, e)
      modifies this`s
      ensures s == Apply(old(s), e)
    {
      s := Apply(s, e);
    }

    method InsertAndArm(timer: int)
      requires Indexed(timers, active, heap, issued, s.queue) && timer in heap
      requires heap[timer].sequence in issued && issued[heap[timer].sequence] == timer
      requires heap[timer].sequence !in s.queue
      modifies this`timers, this`active, this`alarm
      ensures timers == old(timers) + {Entry(heap[timer].expiration, timer)}
      ensures active == old(active) + {TimerId(timer, heap[timer].sequence)}
      ensures alarm == if s.queue == map[] || heap[timer].expiration < Earliest(s.queue)
                       then Arm(heap[timer].expiration, clock) else old(alarm)
    {
      var earliestChanged := Insert(timer, s.queue);
      if earliestChanged {
        alarm := ResetTimerfd(heap[timer].expiration, clock);
      }
    }

    method CancelInLoop(id: TimerId)
      requires Valid()
      modifies this
      ensures Valid() && issued == old(issued)
      ensures s == if old(Genuine(id)) then Apply(old(s), Cancel(id.sequence)) else old(s)
    {
      if id in active {
        EraseAndFree(id);
      } else {
        RememberCancel(id);
      }
    }

    /** The timer is queued: out of both sets, and freed. */
    method EraseAndFree(id: TimerId)
      requires Valid() && id in active
      modifies this
      ensures Valid() && old(Genuine(id)) && s == Apply(old(s), Cancel(id.sequence)) && issued == old(issued)
    {
      AfterCancel(heap, timers, active, issued, live, canceling, s, id);
      Erase(id);
      Advance(Cancel(id.sequence));
    }

    method Erase(id: TimerId)
      requires id.timer in heap
      modifies this`timers, this`heap, this`active, this`live
      ensures timers == old(timers) - {Entry(old(heap)[id.timer].expiration, id.timer)}
      ensures heap == old(heap) - {id.timer} && active == old(active) - {id} && live == old(live) - {id.sequence}
    {
      timers := timers - {Entry(heap[id.timer].expiration, id.timer)};
      heap := heap - {id.timer};
      active := active - {id};
      live := live - {id.sequence};
    }

    /** It is not: if callbacks are running, it may be one of theirs. */
    method RememberCancel(id: TimerId)
      requires Valid() && id !in active
      modifies this`canceling, this`s
      ensures Valid() && s == if old(Genuine(id)) then Apply(old(s), Cancel(id.sequence)) else old(s)
    {
      ghost var t := if Genuine(id) then Apply(s, Cancel(id.sequence)) else s;
      AfterMiss(heap, timers, active, issued, live, canceling, s, id, t);
      if callingExpired {
        canceling := canceling + {id};
      }
      s := t;
    }

    method PassTime(dt: nat)
      requires Valid()
      modifies this
      ensures Valid() && s == Apply(old(s), Tick(dt)) && issued == old(issued) && clock == old(clock) + dt
    {
      PlacedStep(s, Tick(dt));
      clock := clock + dt;
      s := Apply(s, Tick(dt));
    }

    // ---- the alarm ----

    /** Move everything up to now, in order, out of both sets. */
    method GetExpired(now: int) returns (expired: seq<Entry>)
      requires forall e :: e in timers ==> e.timer in heap && e.timer < UINTPTR_MAX
      modifies this`timers, this`active
      ensures IsExpired(old(timers), now, expired)
      ensures forall i :: 0 <= i < |expired| ==> expired[i].timer in heap
      ensures timers == old(timers) - EntriesOf(expired)
      ensures active == old(active) - IdsOf(expired, heap, |expired|)
    {
      expired := UpTo(timers, Entry(now, UINTPTR_MAX));
      timers := set e | e in timers && e !in expired;
      assert timers == old(timers) - EntriesOf(expired);
      var i := 0;
      while i < |expired|
        modifies this`active
        invariant i <= |expired|
        invariant active == old(active) - IdsOf(expired, heap, i)
      {
        active := active - {TimerId(expired[i].timer, heap[expired[i].timer].sequence)};
        i := i + 1;
      }
    }

    /** addTimer called in the loop thread: allocate and insert at once. */
    method AddTimer(address: int, when: int, interval: int) returns (id: TimerId)
      requires Valid() && 0 < address < UINTPTR_MAX && address !in heap
      modifies this
      ensures Valid() && id == TimerId(address, old(s.created) + 1) && Genuine(id)
      ensures Enabled(old(s), Create(when, interval))
      ensures s == Apply(Apply(old(s), Create(when, interval)), Add(id.sequence))
      ensures Reach(old(s), [Create(when, interval)] + [Add(id.sequence)], s)
      ensures Extends(old(issued), issued, old(s.created))
      ensures issued == old(issued)[id.sequence := address]
    {
      ghost var s0 := s;
      id := NewTimer(address, when, interval);
      ghost var s1 := s;
      AddTimerInLoop(address);
      ReachOne(s1, Add(id.sequence));
      ReachFirst(s0, Create(when, interval), [Add(id.sequence)], s);
    }

    /** One thing a callback or another thread does. */
    method RunOp(op: CallbackOp) returns (ghost es: seq<Event>)
      requires Valid()
      modifies this
      ensures Valid() && Reach(old(s), es, s) && ByCallbacks(es)
      ensures SamePhase(old(s), s)
      ensures Extends(old(issued), issued, old(s.created)) && s.created >= old(s.created)
      ensures HasRoom(old(s.created)) ==>
                es == EventsOf(op, old(s.created), old(issued)) && s.created == old(s.created) + Creates(op)
    {
      match op
      case AddTimer(when, interval) => es := RunAdd(true, when, interval);
      case CreateElsewhere(when, interval) => es := RunAdd(false, when, interval);
      case CancelTimer(id) =>
        es := if Genuine(id) then [Cancel(id.sequence)] else [];
        if Genuine(id) {
          ReachOne(s, es[0]);
        }
        CancelInLoop(id);
      case TimePasses(dt) =>
        es := [Tick(dt)];
        ReachOne(s, es[0]);
        PassTime(dt);
    }

    /** addTimer from this thread, or from another one; nothing happens when no address is free. */
    method RunAdd(inLoop: bool, when: int, interval: int) returns (ghost es: seq<Event>)
      requires Valid()
      modifies this
      ensures Valid() && Reach(old(s), es, s) && ByCallbacks(es)
      ensures SamePhase(old(s), s)
      ensures Extends(old(issued), issued, old(s.created)) && s.created >= old(s.created)
      ensures HasRoom(old(s.created)) ==> s.created == old(s.created) + 1
      ensures HasRoom(old(s.created)) ==>
                es == [Create(when, interval)] + if inLoop then [Add(s.created)] else []
    {
      es := [];
      if HasRoom(s.created) {
        RoomIsLeft(heap, issued, live, s.created);
      }
      if a: int :| 0 < a < UINTPTR_MAX && a !in heap {
        if inLoop {
          var id := AddTimer(a, when, interval);
          es := [Create(when, interval)] + [Add(id.sequence)];
        } else {
          es := [Create(when, interval)];
          ReachOne(s, es[0]);
          var _ := NewTimer(a, when, interval);
        }
      }
    }

    /** A repeating timer goes back into both sets, one interval from now. */
    method PutBack(timer: int, now: int, ghost queue: map<int, int>, ghost rest: seq<Due>)
      requires Resetting(heap, timers, active, issued, live, s, queue, rest) && rest != []
      requires rest[0].id !in s.pending && rest[0].id !in queue
      requires forall k :: 0 < k < |rest| ==> rest[k].id != rest[0].id
      requires timer in heap && heap[timer].sequence == rest[0].id
      modifies this`heap, this`timers, this`active, this`live
      ensures Resetting(heap, timers, active, issued, live, s,
                        queue[rest[0].id := now + old(heap[timer].interval)], rest[1..])
    {
      var t := heap[timer].(expiration := now + heap[timer].interval);
      ResetRestart(heap, timers, active, issued, live, s, queue, rest, timer, t);
      heap := heap[timer := t];
      var _ := Insert(timer, queue);
      live := live[t.sequence := t.expiration];
    }

    method Free(timer: int, ghost queue: map<int, int>, ghost rest: seq<Due>)
      requires Resetting(heap, timers, active, issued, live, s, queue, rest) && rest != []
      requires rest[0].id !in s.pending && rest[0].id !in queue
      requires forall k :: 0 < k < |rest| ==> rest[k].id != rest[0].id
      requires timer in heap && heap[timer].sequence == rest[0].id
      modifies this`heap, this`live
      ensures timer !in heap && Resetting(heap, timers, active, issued, live, s, queue, rest[1..])
    {
      ResetDelete(heap, timers, active, issued, live, s, queue, rest, timer);
      heap := heap - {timer};
      live := live - {rest[0].id};
    }

    /** One timer of the batch: put back or freed. */
    method ResetOne(e: Entry, now: int, ghost queue: map<int, int>, ghost after: map<int, int>, ghost rest: seq<Due>)
      requires Resetting(heap, timers, active, issued, live, s, queue, rest) && rest != []
      requires rest[0].id !in s.pending && rest[0].id !in queue
      requires forall k :: 0 < k < |rest| ==> rest[k].id != rest[0].id
      requires e.timer in heap && heap[e.timer].sequence == rest[0].id
      requires after == if heap[e.timer].interval > 0 && TimerId(e.timer, rest[0].id) !in canceling
                        then queue[rest[0].id := now + heap[e.timer].interval]
                        else queue
      modifies this`heap, this`timers, this`active, this`live
      ensures Resetting(heap, timers, active, issued, live, s, after, rest[1..])
    {
      if heap[e.timer].interval > 0 && TimerId(e.timer, heap[e.timer].sequence) !in canceling {
        PutBack(e.timer, now, queue, rest);
      } else {
        Free(e.timer, queue, rest);
      }
    }

    /** The local vector `expired` still names the batch in flight. */
    ghost predicate Taken(expired: seq<Entry>)
      reads this
    {
      s.phase.Firing? && Names(expired, s.phase.batch, issued)
    }

    /** One turn of the first loop of reset. */
    method RequeueAt(expired: seq<Entry>, now: int, i: nat, ghost stages: seq<map<int, int>>)
      requires Placed(s) && s.phase.Firing? && now == s.phase.now && IsStages(s, stages)
      requires CancelsMatch(canceling, issued, s) && Taken(expired) && i < |expired|
      requires Resetting(heap, timers, active, issued, live, s, stages[i], s.phase.batch[i..])
      modifies this`heap, this`timers, this`active, this`live
      ensures Resetting(heap, timers, active, issued, live, s, stages[i + 1], s.phase.batch[i + 1..])
    {
      ghost var rest := s.phase.batch[i..];
      assert rest != [] && rest[0] == s.phase.batch[i] && rest[1..] == s.phase.batch[i + 1..];
      NextAlive(heap, timers, active, issued, live, canceling, s, stages[i], i);
      ResetOne(expired[i], now, stages[i], stages[i + 1], rest);
    }

    /** The first loop of reset. */
    method Requeue(expired: seq<Entry>, now: int, ghost stages: seq<map<int, int>>)
      requires Placed(s) && s.phase.Firing? && now == s.phase.now && IsStages(s, stages)
      requires Resetting(heap, timers, active, issued, live, s, s.queue, s.phase.batch)
      requires CancelsMatch(canceling, issued, s) && Taken(expired)
      modifies this`heap, this`timers, this`active, this`live
      ensures Resetting(heap, timers, active, issued, live, s, stages[|stages| - 1], [])
    {
      ghost var batch := s.phase.batch;
      assert batch[0..] == batch;
      var i := 0;
      while i < |expired|
        modifies this`heap, this`timers, this`active, this`live
        invariant i <= |expired|
        invariant Resetting(heap, timers, active, issued, live, s, stages[i], batch[i..])
      {
        RequeueAt(expired, now, i, stages);
        i := i + 1;
      }
      assert batch[|batch|..] == [];
    }

    /** The end of reset: set the alarm for the head of the queue, if that is a valid time. */
    method ArmNext(ghost queue: map<int, int>)
      requires Indexed(timers, active, heap, issued, queue) && HeapOk(heap, issued, live)
      requires forall q :: q in queue ==> q in live && live[q] == queue[q]
      modifies this`alarm
      ensures alarm == if queue != map[] && Earliest(queue) > 0 then Arm(Earliest(queue), clock) else old(alarm)
    {
      HeadIsEarliest(timers, active, heap, issued, queue);
      if timers != {} {
        var first := First(timers);
        var nextExpire := heap[first.timer].expiration;
        if nextExpire > 0 {
          alarm := ResetTimerfd(nextExpire, clock);
        }
      }
    }

    method Reset(expired: seq<Entry>, now: int)
      requires Coupled() && CancelsMatch(canceling, issued, s) && Enabled(s, Finish)
      requires !callingExpired && now == s.phase.now && Taken(expired)
      modifies this
      ensures Valid() && s == Apply(old(s), Finish) && issued == old(issued)
    {
      ghost var t := Apply(s, Finish);
      ghost var stages := StagesOf(s);
      Requeue(expired, now, stages);
      ResetEnds(heap, timers, active, issued, live, s);
      ArmNext(t.queue);
      s := t;
    }

    /** read(timerfd): an alarm that has fired is consumed; a spurious call changes nothing. */
    method ReadTimerfd()
      modifies this`alarm
      ensures alarm == if old(alarm).Armed? && old(alarm).deadline <= clock then Disarmed else old(alarm)
    {
      if alarm.Armed? && alarm.deadline <= clock {
        alarm := Disarmed;
      }
    }

    /** handleRead up to the first callback. */
    method TakeExpired(lag: nat) returns (expired: seq<Entry>, ghost batch: seq<Due>)
      requires Valid() && s.phase.Idle?
      modifies this
      ensures Enabled(old(s), Begin(batch, lag)) && s == Apply(old(s), Begin(batch, lag))
      ensures Valid() && Taken(expired) && issued == old(issued)
    {
      expired := Collect(lag);
      batch := BatchOf(expired, heap);
      AfterBegin(heap, old(timers), old(active), issued, live, s, expired, lag);
      BatchNames(old(timers), old(active), heap, issued, s.queue, expired);
      StartCalling(batch, lag);
    }

    /** Read the clock and the alarm, and take out what was due. */
    method Collect(lag: nat) returns (expired: seq<Entry>)
      requires forall e :: e in timers ==> e.timer in heap && e.timer < UINTPTR_MAX
      modifies this`clock, this`alarm, this`timers, this`active
      ensures clock == old(clock) + lag
      ensures alarm == if old(alarm).Armed? && old(alarm).deadline <= clock then Disarmed else old(alarm)
      ensures IsExpired(old(timers), old(clock), expired)
      ensures forall i :: 0 <= i < |expired| ==> expired[i].timer in heap
      ensures timers == old(timers) - EntriesOf(expired)
      ensures active == old(active) - IdsOf(expired, heap, |expired|)
    {
      var now := clock;
      clock := clock + lag;
      ReadTimerfd();
      expired := GetExpired(now);
    }

    method StartCalling(ghost batch: seq<Due>, ghost lag: nat)
      requires Enabled(s, Begin(batch, lag))
      modifies this`callingExpired, this`canceling, this`s
      ensures callingExpired && canceling == {} && s == Apply(old(s), Begin(batch, lag))
    {
      callingExpired := true;
      canceling := {};
      s := Apply(s, Begin(batch, lag));
    }

    /** The object of the next timer is still there, and its callback begins. */
    method BeginCallback(timer: int)
      requires Valid() && Enabled(s, RunNext)
      requires s.phase.batch[s.phase.done].id in issued && timer == issued[s.phase.batch[s.phase.done].id]
      modifies this`s
      ensures timer in heap && heap[timer].sequence == old(s.phase.batch[s.phase.done].id)
      ensures Valid() && s == Apply(old(s), RunNext)
    {
      ghost var t := Apply(s, RunNext);
      AfterRun(heap, timers, active, issued, live, canceling, s);
      s := t;
    }

    /** The callback of one timer of the batch. The object that holds it is still alive. The
        callback is free to add and cancel timers, and so are other threads meanwhile. */
    method RunCallback(timer: int, ops: seq<CallbackOp>) returns (ghost es: seq<Event>, ghost parts: seq<Part>)
      requires Valid() && Enabled(s, RunNext)
      requires s.phase.batch[s.phase.done].id in issued && timer == issued[s.phase.batch[s.phase.done].id]
      modifies this
      ensures timer in old(heap) && old(heap[timer]).sequence == old(s.phase.batch[s.phase.done].id)
      ensures Valid() && Reach(old(s), es, s) && NoBegin(es)
      ensures SamePhase(Apply(old(s), RunNext), s)
      ensures Extends(old(issued), issued, old(s.created)) && s.created >= old(s.created)
      ensures HasRoom(s.created) ==>
                es == [RunNext] + Together(parts) && AllBrought(ops, parts, old(s.created), issued, s.created)
    {
      BeginCallback(timer);
      es, parts := RunOps(ops);
      RunsFirst(old(s), es, s);
      es := [RunNext] + es;
    }

    method RunOps(ops: seq<CallbackOp>) returns (ghost es: seq<Event>, ghost parts: seq<Part>)
      requires Valid()
      modifies this
      ensures Valid() && Reach(old(s), es, s) && NoBegin(es) && SamePhase(old(s), s)
      ensures Extends(old(issued), issued, old(s.created)) && s.created >= old(s.created)
      ensures HasRoom(s.created) ==>
                es == Together(parts) && AllBrought(ops, parts, old(s.created), issued, s.created)
    {
      es, parts := [], [];
      ghost var s0 := s;
      var i := 0;
      while i < |ops|
        invariant i <= |ops|
        invariant Valid() && Reach(s0, es, s) && NoBegin(es) && SamePhase(s0, s)
        invariant Extends(old(issued), issued, s0.created) && s.created >= s0.created
        invariant HasRoom(s.created) ==> OpsSoFar(ops[..i], es, parts, s0.created)
      {
        ghost var mid, was := s, issued;
        ghost var more := RunOp(ops[i]);
        RunsOn(s0, es, mid, more, s);
        if HasRoom(s.created) {
          OneOpMore(ops, i, parts, Part(more, mid.created, was), s0.created, was, issued, mid.created, s.created);
        }
        es, parts := es + more, parts + [Part(more, mid.created, was)];
        i := i + 1;
      }
      assert ops[..i] == ops;
    }

    ghost predicate OpsSoFar(ops: seq<CallbackOp>, es: seq<Event>, parts: seq<Part>, n: int)
      reads this
    {
      AllBrought(ops, parts, n, issued, s.created) && es == Together(parts)
    }

    /** One turn of the callback loop. */
    method RunEntry(expired: seq<Entry>, i: nat, ops: seq<CallbackOp>)
        returns (ghost es: seq<Event>, ghost parts: seq<Part>)
      requires Valid() && Taken(expired) && s.phase.done == i < |expired|
      modifies this
      ensures Valid() && Taken(expired) && s.phase.done == i + 1 && s.phase.now == old(s.phase.now)
      ensures Reach(old(s), es, s) && NoBegin(es)
      ensures Extends(old(issued), issued, old(s.created)) && s.created >= old(s.created)
      ensures HasRoom(s.created) ==>
                es == [RunNext] + Together(parts) && AllBrought(ops, parts, old(s.created), issued, s.created)
    {
      es, parts := RunCallback(expired[i].timer, ops);
    }

    /** The callback loop of handleRead. */
    method RunAll(expired: seq<Entry>, script: seq<seq<CallbackOp>>)
        returns (ghost es: seq<Event>, ghost calls: seq<seq<Part>>)
      requires Valid() && Taken(expired) && s.phase.done == 0
      modifies this
      ensures Valid() && Taken(expired) && Enabled(s, Finish) && s.phase.now == old(s.phase.now)
      ensures Reach(old(s), es, s) && NoBegin(es)
      ensures Extends(old(issued), issued, old(s.created)) && s.created >= old(s.created)
      ensures CallsSoFar(script, |expired|, es, calls, old(s.created), issued, s.created)
    {
      es, calls := [], [];
      ghost var s0 := s;
      var i := 0;
      while i < |expired|
        invariant i <= |expired|
        invariant Valid() && Taken(expired) && s.phase.done == i && s.phase.now == s0.phase.now
        invariant Reach(s0, es, s) && NoBegin(es)
        invariant Extends(old(issued), issued, s0.created) && s.created >= s0.created
        invariant CallsSoFar(script, i, es, calls, s0.created, issued, s.created)
      {
        ghost var mid, was := s, issued;
        ghost var more, call := RunEntry(expired, i, During(script, i));
        RunsOn(s0, es, mid, more, s);
        ExtendsOn(old(issued), was, issued, s0.created, mid.created);
        OneCallDone(script, i, es, calls, more, call, s0.created, was, issued, mid.created, s.created);
        es, calls := es + more, calls + [call];
        i := i + 1;
      }
    }

    /** handleRead after the last callback. */
    method EndAlarm(expired: seq<Entry>, now: int)
      requires Valid() && Taken(expired) && Enabled(s, Finish) && now == s.phase.now
      modifies this
      ensures Valid() && s == Apply(old(s), Finish) && issued == old(issued)
    {
      callingExpired := false;
      Reset(expired, now);
    }

    /** The alarm handler. `lag` passes between reading the clock and reading the alarm; script[i]
        is what callbacks and other threads do during the i-th callback. */
    method HandleRead(lag: nat, script: seq<seq<CallbackOp>>)
        returns (ghost batch: seq<Due>, ghost es: seq<Event>, ghost calls: seq<seq<Part>>)
      requires Valid() && s.phase.Idle?
      modifies this
      ensures Valid() && s.phase.Idle?
      ensures Enabled(old(s), Begin(batch, lag)) && Reach(Apply(old(s), Begin(batch, lag)), es, s) && NoBegin(es)
      ensures s.log == old(s.log) + RunsOf(batch, old(s.clock))
      ensures Extends(old(issued), issued, old(s.created)) && s.created >= old(s.created)
      ensures HasRoom(s.created) ==>
                && es == Callbacks(calls) + [Finish] && |calls| == |batch|
                && AllCalled(script, calls, old(s.created), issued, s.created)
    {
      ghost var s0 := s;
      var now := clock;
      var expired;
      expired, batch := TakeExpired(lag);
      es, calls := RunAll(expired, script);
      ghost var mid := s;
      EndAlarm(expired, now);
      AlarmComplete(s0, batch, lag, es, mid, s);
      es := es + [Finish];
    }

    /** The functor that inserts a timer created by another thread. */
    method RunQueuedInsertion(timer: int) returns (ghost es: seq<Event>)
      requires Valid() && s.phase.Idle?
      modifies this
      ensures Valid() && s.phase.Idle? && Reach(old(s), es, s)
      ensures s.created == old(s.created) && issued == old(issued)
      ensures es == if old(timer in heap && heap[timer].sequence in s.pending)
                    then [Add(old(heap)[timer].sequence)] else []
    {
      es := [];
      if timer in heap && TimerId(timer, heap[timer].sequence) !in active {
        InactiveIsPending(heap, timers, active, issued, live, s, timer);
        es := [Add(heap[timer].sequence)];
        ReachOne(s, es[0]);
        AddTimerInLoop(timer);
      }
    }

    method Handle(h: Happening) returns (ghost es: seq<Event>, ghost d: Deed)
      requires Valid() && s.phase.Idle?
      modifies this
      ensures Valid() && s.phase.Idle? && Reach(old(s), es, s)
      ensures Extends(old(issued), issued, old(s.created)) && s.created >= old(s.created)
      ensures HasRoom(s.created) ==> es == Done(d) && Answers(h, d, old(s.created), issued, s.created)
      ensures h.InsertQueued? ==>
                es == if old(h.timer in heap && heap[h.timer].sequence in s.pending)
                      then [Add(old(heap)[h.timer].sequence)] else []
    {
      match h {
        case Op(op) =>
          es := RunOp(op);
          d := Did(Part(es, old(s.created), old(issued)));
        case InsertQueued(timer) =>
          es := RunQueuedInsertion(timer);
          d := Inserted(es, timer, issued);
        case AlarmFires(lag, script) =>
          ghost var batch, calls;
          batch, es, calls := HandleRead(lag, script);
          ReachFirst(old(s), Begin(batch, lag), es, s);
          es, d := [Begin(batch, lag)] + es, Rang(batch, lag, calls);
      }
    }

    /** Whatever happens to the queue, in any order, is a run of the machine, to which each happening
        contributes what it asks for. */
    method Run(script: seq<Happening>) returns (ghost es: seq<Event>, ghost deeds: seq<Deed>)
      requires Valid() && s.phase.Idle?
      modifies this
      ensures Valid() && s.phase.Idle? && Reach(old(s), es, s)
      ensures HasRoom(s.created) ==>
                es == AllDone(deeds) && AllAnswered(script, deeds, old(s.created), issued, s.created)
    {
      es, deeds := [], [];
      var i := 0;
      while i < |script|
        invariant i <= |script| && Valid() && s.phase.Idle? && Reach(old(s), es, s) && s.created >= old(s.created)
        invariant DeedsSoFar(script[..i], es, deeds, old(s.created), issued, s.created)
      {
        ghost var mid, was := s, issued;
        ghost var more, d := Handle(script[i]);
        ReachConcat(old(s), es, mid, more, s);
        OneDeedMore(script, i, es, deeds, more, d, old(s.created), was, issued, mid.created, s.created);
        es, deeds := es + more, deeds + [d];
        i := i + 1;
      }
      assert script[..i] == script;
    }
  }

  /** A queue from its construction through any script: no callback has run early, one-shot timers at
      most once, repeating ones at least an interval apart, and the alarm is set for what is queued. */
  method Life(start: int, script: seq<Happening>) returns (queue: TimerQueue, ghost es: seq<Event>)
    requires start > 0
    ensures fresh(queue) && queue.Valid() && Reach(Init(start), es, queue.s)
    ensures var log := queue.s.log;
            && (forall i :: 0 <= i < |log| ==> log[i].due <= log[i].at <= queue.clock)
            && forall i, j :: 0 <= i < j < |log| && log[i].id == log[j].id ==>
                 queue.s.Repeats(log[i].id) && log[j].at - log[i].at >= queue.s.Interval(log[i].id)
    ensures queue.timers != {} ==>
              && queue.alarm.Armed? && queue.alarm.armedAt <= queue.clock
              && forall e :: IsFirst(queue.timers, e) ==>
                   queue.alarm.deadline <= Max(e.when, queue.alarm.armedAt + MIN_DELAY)
  {
    queue := new TimerQueue(start);
    ghost var deeds;
    es, deeds := queue.Run(script);
    RunsOnTime(start, es, queue.s);
    HeadIsEarliest(queue.timers, queue.active, queue.heap, queue.issued, queue.s.queue);
    if queue.timers != {} {
      AlarmAlwaysSet(start, es, queue.s);
    }
  }
}
