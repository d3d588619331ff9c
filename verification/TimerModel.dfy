/** What a timer queue promises, as a machine that knows timers only by sequence number:
    no addresses, no ordered sets, no manual frees. TimerQueue.dfy shows that the real queue
    behaves like this machine; here are the theorems about whole runs of it. */
module TimerModel {
  import opened Bounds

  const MIN_DELAY := 100

  /** The one-shot kernel alarm. Armed with a deadline in the past means fired and unread. */
  datatype Alarm = Disarmed | Armed(deadline: int, armedAt: int)

  /** A timer taken out of the queue because it expired, with the expiration it had. */
  datatype Due = Due(id: int, expiration: int)

  datatype Phase =
    | Idle
    | Firing(now: int, batch: seq<Due>, done: nat, canceled: set<int>)

  datatype Run = Run(id: int, due: int, at: int)

  /** Times and intervals are microseconds. Timers are numbered 1 to created; intervals is by
      number, queue and pending give expirations; a pending timer is allocated but its insertion
      has not reached the loop thread yet; log is every callback run so far. */
  datatype State = State(clock: int, created: int, intervals: map<int, int>, pending: map<int, int>,
                         queue: map<int, int>, phase: Phase, alarm: Alarm, log: seq<Run>)
  {
    function Interval(id: int): int {
      if id in intervals then intervals[id] else 0
    }

    predicate Repeats(id: int) {
      Interval(id) > 0
    }
  }

  datatype Event =
    | Tick(dt: nat)
    | Create(when: int, interval: int)
    | Add(id: int)
    | Cancel(id: int)
    | Begin(batch: seq<Due>, lag: nat)
    | RunNext
    | Finish

  /** What the kernel is asked for: the time left, but never less than the smallest delay. */
  function Arm(when: int, now: int): Alarm {
    Armed(now + Max(when - now, MIN_DELAY), now)
  }

  ghost predicate InBatch(q: int, batch: seq<Due>, from: nat) {
    exists k :: from <= k < |batch| && batch[k].id == q
  }

  /** batch is everything in the queue due at `now`, once each, in order of expiration. */
  ghost predicate IsDueBatch(queue: map<int, int>, now: int, batch: seq<Due>) {
    && (forall i :: 0 <= i < |batch| ==>
          batch[i].id in queue && batch[i].expiration == queue[batch[i].id] <= now)
    && (forall i, j :: 0 <= i < j < |batch| ==>
          batch[i].id != batch[j].id && batch[i].expiration <= batch[j].expiration)
    && (forall q :: q in queue && queue[q] <= now ==> InBatch(q, batch, 0))
  }

  ghost function Ids(batch: seq<Due>): set<int> {
    set k | 0 <= k < |batch| :: batch[k].id
  }

  /** The timers of the current batch that go back, each due one interval after the alarm. */
  ghost function Restarted(s: State): map<int, int>
    requires s.phase.Firing?
  {
    map q | q in Ids(s.phase.batch) && s.Repeats(q) && q !in s.phase.canceled :: s.phase.now + s.Interval(q)
  }

  lemma SomeKey(queue: map<int, int>)
    requires queue != map[]
    ensures exists q :: q in queue
  {
    assert (forall q :: q !in queue) ==> queue == map[];
  }

  /** The expiration at the head of a non-empty queue. */
  ghost function Earliest(queue: map<int, int>): (e: int)
    requires queue != map[]
    ensures exists q :: q in queue && queue[q] == e
    ensures forall q :: q in queue ==> e <= queue[q]
  {
    SomeKey(queue);
    var q :| q in queue;
    var rest := queue - {q};
    assert forall p :: p in queue && p != q ==> p in rest;
    if rest == map[] then
      queue[q]
    else
      var e := Earliest(rest);
      if queue[q] < e then queue[q] else e
  }

  lemma EarliestIsThere(queue: map<int, int>)
    requires queue != map[]
    ensures exists q :: q in queue && queue[q] == Earliest(queue)
  {
    var e := Earliest(queue);
  }

  ghost predicate Enabled(s: State, e: Event) {
    match e
    case Tick(_) => true
    case Create(_, _) => true
    case Add(id) => id in s.pending
    case Cancel(_) => true
    case Begin(batch, _) => s.phase.Idle? && IsDueBatch(s.queue, s.clock, batch)
    case RunNext => s.phase.Firing? && s.phase.done < |s.phase.batch|
    case Finish => s.phase.Firing? && s.phase.done == |s.phase.batch|
  }

  ghost function Apply(s: State, e: Event): State
    requires Enabled(s, e)
  {
    match e
    case Tick(dt) => s.(clock := s.clock + dt)
    case Create(when, interval) =>
      var id := s.created + 1;
      s.(created := id, intervals := s.intervals[id := interval], pending := s.pending[id := when])
    case Add(id) =>
      var when := s.pending[id];
      s.(pending := s.pending - {id},
         queue := s.queue[id := when],
         alarm := if s.queue == map[] || when < Earliest(s.queue) then Arm(when, s.clock) else s.alarm)
    case Cancel(id) =>
      if id in s.queue then
        s.(queue := s.queue - {id})
      else if s.phase.Firing? then
        s.(phase := s.phase.(canceled := s.phase.canceled + {id}))
      else
        s
    case Begin(batch, lag) =>
      s.(clock := s.clock + lag,
         queue := s.queue - Ids(batch),
         phase := Firing(s.clock, batch, 0, {}),
         alarm := if s.alarm.Armed? && s.alarm.deadline <= s.clock + lag then Disarmed else s.alarm)
    case RunNext =>
      var due := s.phase.batch[s.phase.done];
      s.(phase := s.phase.(done := s.phase.done + 1),
         log := s.log + [Run(due.id, due.expiration, s.phase.now)])
    case Finish =>
      var queue := s.queue + Restarted(s);
      s.(queue := queue,
         phase := Idle,
         alarm := if queue != map[] && Earliest(queue) > 0 then Arm(Earliest(queue), s.clock) else s.alarm)
  }

  /** es can happen from s and leads to t. */
  ghost predicate Reach(s: State, es: seq<Event>, t: State)
    decreases |es|
  {
    if es == [] then s == t else Enabled(s, es[0]) && Reach(Apply(s, es[0]), es[1..], t)
  }

  ghost function Init(clock: int): State {
    State(clock, 0, map[], map[], map[], Idle, Disarmed, [])
  }

  // ---- the invariant ----

  /** No timer is in two places, numbers are never reused, a batch in flight is in order and
      was due when it was taken. */
  ghost predicate Placed(s: State) {
    && s.clock > 0 && s.created >= 0
    && (forall q :: q in s.intervals ==> 1 <= q <= s.created)
    && (forall q :: q in s.pending || q in s.queue ==> q in s.intervals)
    && (forall q :: q in s.pending ==> q !in s.queue)
    && (s.phase.Firing? ==>
          && 0 < s.phase.now <= s.clock
          && s.phase.done <= |s.phase.batch|
          && (forall i :: 0 <= i < |s.phase.batch| ==>
                var d := s.phase.batch[i];
                && d.expiration <= s.phase.now && d.id in s.intervals
                && d.id !in s.pending && d.id !in s.queue)
          && (forall i, j :: 0 <= i < j < |s.phase.batch| ==> s.phase.batch[i].id != s.phase.batch[j].id))
  }

  /** If timer q may run again with expiration e, run r of it was at least one interval earlier. */
  ghost predicate Spaced(s: State, r: Run, q: int, e: int) {
    r.id == q ==> s.Repeats(q) && r.at + s.Interval(q) <= e
  }

  ghost predicate LogOk(s: State) {
    && (forall i :: 0 <= i < |s.log| ==>
          var r := s.log[i];
          && r.due <= r.at <= s.clock && r.id in s.intervals
          && r.id !in s.pending
          && (s.phase.Firing? ==> r.at <= s.phase.now))
    && (forall i, j :: 0 <= i < j < |s.log| ==> Spaced(s, s.log[i], s.log[j].id, s.log[j].due))
    && (forall i, q :: 0 <= i < |s.log| && q in s.queue ==> Spaced(s, s.log[i], q, s.queue[q]))
    && (s.phase.Firing? ==>
          forall i, k :: 0 <= i < |s.log| && s.phase.done <= k < |s.phase.batch| ==>
            Spaced(s, s.log[i], s.phase.batch[k].id, s.phase.batch[k].expiration))
  }

  ghost predicate Covers(a: Alarm, expiration: int) {
    a.Armed? && a.deadline <= Max(expiration, a.armedAt + MIN_DELAY)
  }

  /** Between handlers the alarm covers every queued timer. While callbacks run it may be
      disarmed, unless a timer with an expiration no real time can reach heads the queue. */
  ghost predicate AlarmOk(s: State) {
    && (s.alarm.Armed? ==> s.alarm.armedAt <= s.clock && s.alarm.armedAt + MIN_DELAY <= s.alarm.deadline)
    && (forall q :: q in s.queue && (s.phase.Idle? || exists p :: p in s.queue && s.queue[p] <= 0) ==>
          Covers(s.alarm, s.queue[q]))
  }

  ghost predicate Inv(s: State) {
    Placed(s) && LogOk(s) && AlarmOk(s)
  }

  lemma InitInv(clock: int)
    requires clock > 0
    ensures Inv(Init(clock))
  {
  }

  lemma PlacedStep(s: State, e: Event)
    requires Placed(s) && Enabled(s, e)
    ensures Placed(Apply(s, e))
  {
  }

  lemma LogRunNext(s: State)
    requires Placed(s) && LogOk(s) && Enabled(s, RunNext)
    ensures LogOk(Apply(s, RunNext))
  {
    var t := Apply(s, RunNext);
    var due := s.phase.batch[s.phase.done];
    var r := t.log[|s.log|];
    assert t.log == s.log + [r];
    forall i, j | 0 <= i < j < |t.log|
      ensures Spaced(t, t.log[i], t.log[j].id, t.log[j].due)
    {
      assert t.log[i] == s.log[i];
      if j < |s.log| {
        assert Spaced(s, s.log[i], s.log[j].id, s.log[j].due);
      } else {
        assert Spaced(s, s.log[i], due.id, due.expiration);
      }
    }
    forall i, q | 0 <= i < |t.log| && q in t.queue
      ensures Spaced(t, t.log[i], q, t.queue[q])
    {
      if i < |s.log| {
        assert Spaced(s, s.log[i], q, s.queue[q]);
      }
    }
    forall i, k | 0 <= i < |t.log| && t.phase.done <= k < |t.phase.batch|
      ensures Spaced(t, t.log[i], t.phase.batch[k].id, t.phase.batch[k].expiration)
    {
      if i < |s.log| {
        assert Spaced(s, s.log[i], s.phase.batch[k].id, s.phase.batch[k].expiration);
      }
    }
  }

  lemma LogFinish(s: State)
    requires Placed(s) && LogOk(s) && Enabled(s, Finish)
    ensures LogOk(Apply(s, Finish))
  {
    var t := Apply(s, Finish);
    forall i, q | 0 <= i < |t.log| && q in t.queue
      ensures Spaced(t, t.log[i], q, t.queue[q])
    {
      if q !in Restarted(s) {
        assert Spaced(s, s.log[i], q, s.queue[q]);
      }
    }
  }

  /** Steps that run nothing, and queue nothing but timers that never ran. */
  lemma LogQuiet(s: State, e: Event)
    requires Placed(s) && LogOk(s) && Enabled(s, e) && !e.RunNext? && !e.Finish?
    ensures LogOk(Apply(s, e))
  {
    var t := Apply(s, e);
    forall i, q | 0 <= i < |t.log| && q in t.queue
      ensures Spaced(t, t.log[i], q, t.queue[q])
    {
      if q in s.queue {
        assert Spaced(s, s.log[i], q, s.queue[q]);
      }
    }
    forall i, j | 0 <= i < j < |t.log|
      ensures Spaced(t, t.log[i], t.log[j].id, t.log[j].due)
    {
      assert Spaced(s, s.log[i], s.log[j].id, s.log[j].due);
    }
    if t.phase.Firing? {
      forall i, k | 0 <= i < |t.log| && t.phase.done <= k < |t.phase.batch|
        ensures Spaced(t, t.log[i], t.phase.batch[k].id, t.phase.batch[k].expiration)
      {
        var d := t.phase.batch[k];
        if e.Begin? {
          assert Spaced(s, s.log[i], d.id, s.queue[d.id]);
        } else {
          assert Spaced(s, s.log[i], s.phase.batch[k].id, s.phase.batch[k].expiration);
        }
      }
    }
  }

  lemma LogStep(s: State, e: Event)
    requires Placed(s) && LogOk(s) && Enabled(s, e)
    ensures LogOk(Apply(s, e))
  {
    match e
    case RunNext => LogRunNext(s);
    case Finish => LogFinish(s);
    case _ => LogQuiet(s, e);
  }

  lemma AlarmAdd(s: State, id: int)
    requires Placed(s) && AlarmOk(s) && id in s.pending
    ensures AlarmOk(Apply(s, Add(id)))
  {
    var t := Apply(s, Add(id));
    if s.queue != map[] {
      EarliestIsThere(s.queue);
      var q :| q in s.queue && s.queue[q] == Earliest(s.queue);
      assert s.queue[q] <= 0 ==> Covers(s.alarm, s.queue[q]);
    }
  }

  lemma AlarmFinish(s: State)
    requires Placed(s) && AlarmOk(s) && Enabled(s, Finish)
    ensures AlarmOk(Apply(s, Finish))
  {
    var t := Apply(s, Finish);
    if t.queue != map[] && Earliest(t.queue) <= 0 {
      EarliestIsThere(t.queue);
      var p :| p in t.queue && t.queue[p] == Earliest(t.queue);
      assert p in s.queue && s.queue[p] <= 0;
    }
  }

  lemma AlarmStep(s: State, e: Event)
    requires Placed(s) && AlarmOk(s) && Enabled(s, e)
    ensures AlarmOk(Apply(s, e))
  {
    match e
    case Add(id) => AlarmAdd(s, id);
    case Finish => AlarmFinish(s);
    case _ =>
  }

  lemma InvStep(s: State, e: Event)
    requires Inv(s) && Enabled(s, e)
    ensures Inv(Apply(s, e))
  {
    PlacedStep(s, e);
    LogStep(s, e);
    AlarmStep(s, e);
  }

  lemma {:induction false} ReachInv(s: State, es: seq<Event>, t: State)
    requires Inv(s) && Reach(s, es, t)
    ensures Inv(t)
    decreases |es|
  {
    if es != [] {
      InvStep(s, es[0]);
      ReachInv(Apply(s, es[0]), es[1..], t);
    }
  }

  // ---- theorems about every run ----

  /** No callback ever runs early; a one-shot timer runs at most once; two runs of a repeating
      timer belong to alarms at least one interval apart. */
  lemma RunsOnTime(clock: int, es: seq<Event>, t: State)
    requires clock > 0 && Reach(Init(clock), es, t)
    ensures forall i :: 0 <= i < |t.log| ==> t.log[i].due <= t.log[i].at <= t.clock
    ensures forall i, j :: 0 <= i < j < |t.log| && t.log[i].id == t.log[j].id ==>
              t.Repeats(t.log[i].id) && t.log[j].at - t.log[i].at >= t.Interval(t.log[i].id)
  {
    InitInv(clock);
    ReachInv(Init(clock), es, t);
    forall i, j | 0 <= i < j < |t.log| && t.log[i].id == t.log[j].id
      ensures t.Repeats(t.log[i].id) && t.log[j].at - t.log[i].at >= t.Interval(t.log[i].id)
    {
      assert Spaced(t, t.log[i], t.log[j].id, t.log[j].due);
    }
  }

  /** Whenever no handler is running and a timer is queued, the alarm is set no later than the
      earliest expiration, or the smallest delay the kernel is ever given. */
  lemma AlarmAlwaysSet(clock: int, es: seq<Event>, t: State)
    requires clock > 0 && Reach(Init(clock), es, t)
    requires t.phase.Idle? && t.queue != map[]
    ensures t.alarm.Armed? && t.alarm.armedAt <= t.clock
    ensures t.alarm.deadline <= Max(Earliest(t.queue), t.alarm.armedAt + MIN_DELAY)
  {
    InitInv(clock);
    ReachInv(Init(clock), es, t);
    EarliestIsThere(t.queue);
    var q :| q in t.queue && t.queue[q] == Earliest(t.queue);
    assert Covers(t.alarm, t.queue[q]);
  }

  // ---- what the alarm is set for ----

  lemma EarliestOfMore(queue: map<int, int>, q: int, when: int)
    requires q !in queue && (queue == map[] || when < Earliest(queue))
    ensures Earliest(queue[q := when]) == when
  {
    var more := queue[q := when];
    assert q in more && more[q] == when;
  }

  /** a was set at time now, for the head of the queue, or for the smallest delay if that is over. */
  ghost predicate SetFor(a: Alarm, queue: map<int, int>, now: int) {
    queue != map[] && a.Armed? && a.armedAt == now && a.deadline == Max(Earliest(queue), now + MIN_DELAY)
  }

  /** A step leaves the alarm alone, consumes it, or sets it for the head of the queue as it is then. */
  lemma ArmsForEarliest(s: State, e: Event)
    requires Placed(s) && Enabled(s, e)
    ensures var t := Apply(s, e); t.alarm == s.alarm || t.alarm.Disarmed? || SetFor(t.alarm, t.queue, t.clock)
  {
    if e.Add? && (s.queue == map[] || s.pending[e.id] < Earliest(s.queue)) {
      EarliestOfMore(s.queue, e.id, s.pending[e.id]);
    }
  }

  /** Where the alarm of t was last set, if that was on the way from s. */
  lemma {:induction false} LastSet(s: State, es: seq<Event>, t: State) returns (i: nat, m: State)
    requires Placed(s) && Reach(s, es, t) && t.alarm.Armed?
    ensures i <= |es| && Reach(s, es[..i], m) && m.alarm == t.alarm
    ensures i > 0 ==> SetFor(m.alarm, m.queue, m.clock)
    decreases |es|
  {
    i, m := 0, s;
    if es != [] {
      var n := Apply(s, es[0]);
      PlacedStep(s, es[0]);
      ArmsForEarliest(s, es[0]);
      i, m := LastSet(n, es[1..], t);
      if i > 0 || n.alarm != s.alarm {
        assert es[..i + 1] == [es[0]] + es[1..][..i];
        ReachFirst(s, es[0], es[1..][..i], m);
        i := i + 1;
        if i == 1 {
          assert Reach(n, [], m);
        }
      } else {
        m := s;
      }
    }
  }

  /** An alarm that is set was set for the timer that was the earliest at the time, to the moment it
      is due, and not before the smallest delay. */
  lemma AlarmWasForEarliest(clock: int, es: seq<Event>, t: State) returns (i: nat, m: State)
    requires clock > 0 && Reach(Init(clock), es, t) && t.alarm.Armed?
    ensures i <= |es| && Reach(Init(clock), es[..i], m) && m.alarm == t.alarm && m.queue != map[]
    ensures t.alarm.armedAt == m.clock && t.alarm.deadline == Max(Earliest(m.queue), m.clock + MIN_DELAY)
  {
    i, m := LastSet(Init(clock), es, t);
  }

  /** No cancel, and no expiration that no time can reach. */
  ghost predicate Plain(es: seq<Event>) {
    forall i :: 0 <= i < |es| ==> !es[i].Cancel? && (es[i].Create? ==> es[i].when > 0)
  }

  ghost predicate Positive(s: State) {
    (forall q :: q in s.pending ==> s.pending[q] > 0) && (forall q :: q in s.queue ==> s.queue[q] > 0)
  }

  ghost predicate Exact(s: State) {
    s.phase.Idle? && s.queue != map[] ==> s.alarm.Armed? && SetFor(s.alarm, s.queue, s.alarm.armedAt)
  }

  lemma EarliestStays(queue: map<int, int>, q: int, when: int)
    requires q !in queue && queue != map[] && when >= Earliest(queue)
    ensures Earliest(queue[q := when]) == Earliest(queue)
  {
    EarliestIsThere(queue);
    var p :| p in queue && queue[p] == Earliest(queue);
    var more := queue[q := when];
    assert p in more && more[p] == Earliest(queue);
  }

  lemma ExactAdd(s: State, id: int)
    requires Placed(s) && Exact(s) && id in s.pending
    ensures Exact(Apply(s, Add(id)))
  {
    if s.queue == map[] || s.pending[id] < Earliest(s.queue) {
      EarliestOfMore(s.queue, id, s.pending[id]);
    } else {
      EarliestStays(s.queue, id, s.pending[id]);
    }
  }

  lemma ExactFinish(s: State)
    requires Placed(s) && Positive(s) && Enabled(s, Finish)
    ensures Positive(Apply(s, Finish)) && Exact(Apply(s, Finish))
  {
    var t := Apply(s, Finish);
    if t.queue != map[] {
      EarliestIsThere(t.queue);
    }
  }

  lemma ExactStep(s: State, e: Event)
    requires Placed(s) && Positive(s) && Exact(s) && Enabled(s, e)
    requires !e.Cancel? && (e.Create? ==> e.when > 0)
    ensures Positive(Apply(s, e)) && Exact(Apply(s, e))
  {
    match e
    case Add(id) => ExactAdd(s, id);
    case Finish => ExactFinish(s);
    case _ =>
  }

  lemma {:induction false} ExactRun(s: State, es: seq<Event>, t: State)
    requires Placed(s) && Positive(s) && Exact(s) && Reach(s, es, t) && Plain(es)
    ensures Exact(t)
    decreases |es|
  {
    if es != [] {
      PlacedStep(s, es[0]);
      ExactStep(s, es[0]);
      ExactRun(Apply(s, es[0]), es[1..], t);
    }
  }

  /** While nobody cancels, the alarm of an idle queue is set for its earliest timer and for no sooner. */
  lemma AlarmIsForEarliest(clock: int, es: seq<Event>, t: State)
    requires clock > 0 && Reach(Init(clock), es, t) && Plain(es)
    requires t.phase.Idle? && t.queue != map[]
    ensures t.alarm.Armed? && t.alarm.deadline == Max(Earliest(t.queue), t.alarm.armedAt + MIN_DELAY)
  {
    ExactRun(Init(clock), es, t);
  }

  // ---- when a timer is due ----

  /** The expiration of a timer that was to run first at `first`: that, or one interval after the alarm
      that ran it last. */
  ghost function NextDue(log: seq<Run>, q: int, first: int, interval: int): int {
    if log == [] then first
    else
      var last := log[|log| - 1];
      if last.id == q then last.at + interval else NextDue(log[..|log| - 1], q, first, interval)
  }

  ghost predicate DueInTurn(log: seq<Run>, q: int, first: int, interval: int) {
    forall j :: 0 <= j < |log| && log[j].id == q ==> log[j].due == NextDue(log[..j], q, first, interval)
  }

  ghost predicate Punctual(s: State, q: int, first: int, interval: int) {
    && q in s.intervals && s.Interval(q) == interval
    && DueInTurn(s.log, q, first, interval)
    && (q in s.pending ==> s.pending[q] == first == NextDue(s.log, q, first, interval))
    && (q in s.queue ==> s.queue[q] == NextDue(s.log, q, first, interval))
    && (s.phase.Firing? ==> forall k :: 0 <= k < |s.phase.batch| && s.phase.batch[k].id == q ==>
          NextDue(s.log, q, first, interval)
          == if k < s.phase.done then s.phase.now + interval else s.phase.batch[k].expiration)
  }

  lemma PunctualRun(s: State, q: int, first: int, interval: int)
    requires Placed(s) && Punctual(s, q, first, interval) && Enabled(s, RunNext)
    ensures Punctual(Apply(s, RunNext), q, first, interval)
  {
    var t := Apply(s, RunNext);
    assert t.log[..|s.log|] == s.log;
    forall j | 0 <= j < |t.log| && t.log[j].id == q
      ensures t.log[j].due == NextDue(t.log[..j], q, first, interval)
    {
      if j < |s.log| {
        assert t.log[..j] == s.log[..j];
      }
    }
  }

  lemma PunctualStep(s: State, e: Event, q: int, first: int, interval: int)
    requires Placed(s) && Punctual(s, q, first, interval) && Enabled(s, e)
    ensures Punctual(Apply(s, e), q, first, interval)
  {
    match e
    case RunNext => PunctualRun(s, q, first, interval);
    case Finish =>
      if q in Ids(s.phase.batch) {
        assert InBatch(q, s.phase.batch, 0);
      }
    case _ =>
  }

  lemma {:induction false} PunctualForever(s: State, es: seq<Event>, t: State, q: int, first: int, interval: int)
    requires Placed(s) && Punctual(s, q, first, interval) && Reach(s, es, t)
    ensures Punctual(t, q, first, interval)
    decreases |es|
  {
    if es != [] {
      PlacedStep(s, es[0]);
      PunctualStep(s, es[0], q, first, interval);
      PunctualForever(Apply(s, es[0]), es[1..], t, q, first, interval);
    }
  }

  lemma {:induction false} NeverRan(log: seq<Run>, q: int, first: int, interval: int)
    requires forall j :: 0 <= j < |log| ==> log[j].id != q
    ensures NextDue(log, q, first, interval) == first
  {
    if log != [] {
      NeverRan(log[..|log| - 1], q, first, interval);
    }
  }

  /** Whatever happens after a timer is made, it is queued, and runs, for the time asked for, and from
      then on for one interval after the alarm that ran it last. */
  lemma DueWhenAsked(clock: int, before: seq<Event>, s: State, when: int, interval: int,
                     after: seq<Event>, t: State)
    requires clock > 0 && Reach(Init(clock), before, s)
    requires Reach(Apply(s, Create(when, interval)), after, t)
    ensures var q := s.created + 1;
            && t.Interval(q) == interval
            && (q in t.pending ==> t.pending[q] == when)
            && (q in t.queue ==> t.queue[q] == NextDue(t.log, q, when, interval))
            && forall j :: 0 <= j < |t.log| && t.log[j].id == q ==>
                 t.log[j].due == NextDue(t.log[..j], q, when, interval)
  {
    InitInv(clock);
    ReachInv(Init(clock), before, s);
    var m, q := Apply(s, Create(when, interval)), s.created + 1;
    PlacedStep(s, Create(when, interval));
    NeverRan(s.log, q, when, interval);
    PunctualForever(m, after, t, q, when, interval);
  }

  function RunsOf(batch: seq<Due>, now: int): (runs: seq<Run>)
    ensures |runs| == |batch|
    ensures forall i :: 0 <= i < |batch| ==> runs[i] == Run(batch[i].id, batch[i].expiration, now)
  {
    seq(|batch|, i requires 0 <= i < |batch| => Run(batch[i].id, batch[i].expiration, now))
  }

  ghost predicate NoBegin(es: seq<Event>) {
    forall i :: 0 <= i < |es| ==> !es[i].Begin?
  }

  /** One alarm, from s where it began: what has run since is a prefix of the batch. */
  ghost predicate DuringAlarm(t: State, batch: seq<Due>, now: int, before: seq<Run>) {
    && t.phase.Firing? && t.phase.batch == batch && t.phase.now == now && t.phase.done <= |batch|
    && t.log == before + RunsOf(batch[..t.phase.done], now)
  }

  lemma {:induction false} AlarmRunsBatchFrom(s: State, es: seq<Event>, t: State,
                                              batch: seq<Due>, now: int, before: seq<Run>)
    requires DuringAlarm(s, batch, now, before) && Reach(s, es, t)
    requires NoBegin(es)
    ensures t.phase.Firing? ==> DuringAlarm(t, batch, now, before)
    ensures t.phase.Idle? ==> t.log == before + RunsOf(batch, now)
    decreases |es|
  {
    if es == [] {
    } else {
      var m := Apply(s, es[0]);
      if es[0].Finish? {
        assert batch[..|batch|] == batch;
        IdleLogStays(m, es[1..], t);
      } else {
        if es[0].RunNext? {
          var n := s.phase.done;
          assert batch[..n + 1] == batch[..n] + [batch[n]];
          assert RunsOf(batch[..m.phase.done], now) == RunsOf(batch[..s.phase.done], now) + [m.log[|s.log|]];
        }
        AlarmRunsBatchFrom(m, es[1..], t, batch, now, before);
      }
    }
  }

  lemma {:induction false} IdleLogStays(s: State, es: seq<Event>, t: State)
    requires s.phase.Idle? && Reach(s, es, t)
    requires NoBegin(es)
    ensures t.phase.Idle? && t.log == s.log
    decreases |es|
  {
    if es != [] {
      IdleLogStays(Apply(s, es[0]), es[1..], t);
    }
  }

  /** Whatever callbacks and other threads do in the meantime, one alarm runs exactly the timers
      that were due when it began, once each, in order of expiration. */
  lemma AlarmRunsBatch(s: State, batch: seq<Due>, lag: nat, es: seq<Event>, t: State)
    requires Enabled(s, Begin(batch, lag)) && Reach(Apply(s, Begin(batch, lag)), es, t)
    requires NoBegin(es) && t.phase.Idle?
    ensures t.log == s.log + RunsOf(batch, s.clock)
  {
    var m := Apply(s, Begin(batch, lag));
    assert m.log == s.log + RunsOf(batch[..0], s.clock);
    AlarmRunsBatchFrom(m, es, t, batch, s.clock, s.log);
  }

  /** Of the queued timers it runs those whose time has come, for the expiration they had, and of two
      of them the one with the earlier expiration first. */
  lemma DueTimersRun(s: State, batch: seq<Due>, lag: nat, es: seq<Event>, t: State)
    requires Enabled(s, Begin(batch, lag)) && Reach(Apply(s, Begin(batch, lag)), es, t)
    requires NoBegin(es) && t.phase.Idle?
    ensures |s.log| <= |t.log|
    ensures forall q :: q in s.queue ==>
              (s.queue[q] <= s.clock <==> Run(q, s.queue[q], s.clock) in t.log[|s.log|..])
    ensures forall i, j :: |s.log| <= i < j < |t.log| ==> t.log[i].due <= t.log[j].due && t.log[i].id != t.log[j].id
  {
    AlarmRunsBatch(s, batch, lag, es, t);
    var runs := RunsOf(batch, s.clock);
    assert t.log[|s.log|..] == runs;
    forall q | q in s.queue && s.queue[q] <= s.clock
      ensures Run(q, s.queue[q], s.clock) in runs
    {
      var k :| 0 <= k < |batch| && batch[k].id == q;
      assert runs[k] == Run(q, s.queue[q], s.clock);
    }
  }

  function Count(log: seq<Run>, q: int): nat {
    if log == [] then 0 else Count(log[..|log| - 1], q) + if log[|log| - 1].id == q then 1 else 0
  }

  /** 1 if the current alarm has taken q out but its turn is still to come. */
  ghost function Owed(s: State, q: int): nat {
    if s.phase.Firing? && InBatch(q, s.phase.batch, s.phase.done) then 1 else 0
  }

  ghost predicate Settled(s: State, q: int, total: nat) {
    && Placed(s) && q in s.intervals
    && q !in s.pending && q !in s.queue
    && (s.phase.Firing? && InBatch(q, s.phase.batch, 0) ==> q in s.phase.canceled)
    && Count(s.log, q) + Owed(s, q) == total
  }

  lemma SettledRun(s: State, q: int, total: nat)
    requires Settled(s, q, total) && Enabled(s, RunNext)
    ensures Settled(Apply(s, RunNext), q, total)
  {
    PlacedStep(s, RunNext);
    var t := Apply(s, RunNext);
    assert t.log[..|s.log|] == s.log;
    OwedNext(s, q);
  }

  lemma OwedNext(s: State, q: int)
    requires Placed(s) && Enabled(s, RunNext)
    ensures Owed(s, q) == Owed(Apply(s, RunNext), q) + if s.phase.batch[s.phase.done].id == q then 1 else 0
  {
    var t := Apply(s, RunNext);
    if s.phase.batch[s.phase.done].id == q {
      assert !InBatch(q, t.phase.batch, t.phase.done);
    } else if InBatch(q, s.phase.batch, s.phase.done) {
      var k :| s.phase.done <= k < |s.phase.batch| && s.phase.batch[k].id == q;
      assert t.phase.done <= k;
    }
  }

  lemma SettledFinish(s: State, q: int, total: nat)
    requires Settled(s, q, total) && Enabled(s, Finish)
    ensures Settled(Apply(s, Finish), q, total)
  {
    PlacedStep(s, Finish);
    assert q in Ids(s.phase.batch) ==> InBatch(q, s.phase.batch, 0);
  }

  lemma SettledQuiet(s: State, e: Event, q: int, total: nat)
    requires Settled(s, q, total) && Enabled(s, e) && !e.RunNext? && !e.Finish?
    ensures Settled(Apply(s, e), q, total)
  {
    PlacedStep(s, e);
  }

  lemma SettledStep(s: State, e: Event, q: int, total: nat)
    requires Settled(s, q, total) && Enabled(s, e)
    ensures Settled(Apply(s, e), q, total)
  {
    match e
    case RunNext => SettledRun(s, q, total);
    case Finish => SettledFinish(s, q, total);
    case _ => SettledQuiet(s, e, q, total);
  }

  lemma {:induction false} SettledForever(s: State, es: seq<Event>, t: State, q: int, total: nat)
    requires Settled(s, q, total) && Reach(s, es, t)
    ensures Settled(t, q, total)
    decreases |es|
  {
    if es != [] {
      SettledStep(s, es[0], q, total);
      SettledForever(Apply(s, es[0]), es[1..], t, q, total);
    }
  }

  /** Cancelling a timer that has reached the loop settles it for good. It is never queued
      again, and the only run it can still make is the one an alarm in flight already owes it:
      none at all if it was queued, exactly that one once the alarm is over. */
  lemma CancelSettles(clock: int, before: seq<Event>, s: State, q: int, after: seq<Event>, t: State)
    requires clock > 0 && Reach(Init(clock), before, s)
    requires q in s.intervals && q !in s.pending
    requires Reach(Apply(s, Cancel(q)), after, t)
    ensures q !in t.queue
    ensures Count(s.log, q) <= Count(t.log, q) <= Count(s.log, q) + Owed(s, q)
    ensures t.phase.Idle? ==> Count(t.log, q) == Count(s.log, q) + Owed(s, q)
    ensures q in s.queue ==> Owed(s, q) == 0
  {
    InitInv(clock);
    ReachInv(Init(clock), before, s);
    PlacedStep(s, Cancel(q));
    SettledForever(Apply(s, Cancel(q)), after, t, q, Count(s.log, q) + Owed(s, q));
    CountGrows(Apply(s, Cancel(q)), after, t, q);
  }

  lemma {:induction false} CountGrows(s: State, es: seq<Event>, t: State, q: int)
    requires Reach(s, es, t)
    ensures Count(s.log, q) <= Count(t.log, q)
    decreases |es|
  {
    if es != [] {
      var m := Apply(s, es[0]);
      if es[0].RunNext? {
        assert m.log[..|s.log|] == s.log;
      }
      CountGrows(m, es[1..], t, q);
    }
  }

  /** q will get its next run unless someone cancels it. */
  ghost predicate Kept(s: State, q: int) {
    || q in s.queue
    || (s.phase.Firing? && InBatch(q, s.phase.batch, s.phase.done))
    || (s.phase.Firing? && InBatch(q, s.phase.batch, 0) && s.Repeats(q) && q !in s.phase.canceled)
  }

  ghost predicate Scheduled(s: State, q: int) {
    Kept(s, q) && (s.phase.Firing? && InBatch(q, s.phase.batch, 0) ==> q !in s.phase.canceled)
  }

  /** q has its next run coming, or is a one-shot timer that ran since it had run `before` times. */
  ghost predicate Fated(s: State, q: int, before: nat) {
    || Scheduled(s, q)
    || (!s.Repeats(q) && Count(s.log, q) > before)
  }

  lemma ScheduledStep(s: State, e: Event, q: int)
    requires Placed(s) && Enabled(s, e) && e != Cancel(q) && Scheduled(s, q)
    ensures Fated(Apply(s, e), q, Count(s.log, q))
  {
    var t := Apply(s, e);
    match e
    case Begin(batch, lag) =>
      if q in s.queue && s.queue[q] <= s.clock {
        assert InBatch(q, t.phase.batch, t.phase.done);
      } else {
        assert q !in Ids(batch);
      }
    case RunNext =>
      var due := s.phase.batch[s.phase.done];
      assert t.log[..|s.log|] == s.log;
      if due.id == q {
        assert InBatch(q, t.phase.batch, 0);
      } else if InBatch(q, s.phase.batch, s.phase.done) {
        var k :| s.phase.done <= k < |s.phase.batch| && s.phase.batch[k].id == q;
        assert t.phase.done <= k;
      }
    case _ =>
  }

  lemma CountOne(s: State, e: Event, q: int)
    requires Placed(s) && Enabled(s, e) && q in s.intervals
    ensures Count(s.log, q) <= Count(Apply(s, e).log, q)
    ensures q in Apply(s, e).intervals && Apply(s, e).Interval(q) == s.Interval(q)
  {
    if e.RunNext? {
      assert Apply(s, e).log[..|s.log|] == s.log;
    }
  }

  lemma FatedStep(s: State, e: Event, q: int, before: nat)
    requires Placed(s) && q in s.intervals && Enabled(s, e) && e != Cancel(q)
    requires Fated(s, q, before) && before <= Count(s.log, q)
    ensures Fated(Apply(s, e), q, before) && before <= Count(Apply(s, e).log, q)
    ensures q in Apply(s, e).intervals
  {
    CountOne(s, e, q);
    if Scheduled(s, q) {
      ScheduledStep(s, e, q);
    }
  }

  /** A timer that has been queued and is not cancelled is never lost: it stays queued or owed,
      or it is a one-shot timer that has run. */
  lemma {:induction false} NeverLost(s: State, es: seq<Event>, t: State, q: int, before: nat)
    requires Placed(s) && q in s.intervals && Reach(s, es, t)
    requires forall i :: 0 <= i < |es| ==> es[i] != Cancel(q)
    requires Fated(s, q, before) && before <= Count(s.log, q)
    ensures Fated(t, q, before)
    decreases |es|
  {
    if es != [] {
      PlacedStep(s, es[0]);
      FatedStep(s, es[0], q, before);
      NeverLost(Apply(s, es[0]), es[1..], t, q, before);
    }
  }

  /** A cancel that overtakes the insertion of its timer is forgotten: the insertion still comes. */
  lemma OvertakingIsForgotten(s: State, q: int)
    requires Placed(s) && q in s.pending
    ensures Enabled(Apply(s, Cancel(q)), Add(q))
    ensures var t := Apply(Apply(s, Cancel(q)), Add(q));
            Reach(Apply(s, Cancel(q)), [Add(q)], t) && q in t.queue
  {
    ReachOne(Apply(s, Cancel(q)), Add(q));
  }

  /** q is never queued again, whatever happens from s on. */
  ghost predicate StaysOut(s: State, q: int) {
    forall after, t :: Reach(s, after, t) ==> q !in t.queue
  }

  /** A cancel keeps an existing timer out of the queue for good exactly if the timer's insertion
      has reached the loop. */
  lemma WhenCancelCounts(clock: int, before: seq<Event>, s: State, q: int)
    requires clock > 0 && Reach(Init(clock), before, s) && q in s.intervals
    ensures q !in s.pending <==> StaysOut(Apply(s, Cancel(q)), q)
  {
    var m := Apply(s, Cancel(q));
    if q in s.pending {
      InitInv(clock);
      ReachInv(Init(clock), before, s);
      OvertakingIsForgotten(s, q);
      var t := Apply(m, Add(q));
      assert Reach(m, [Add(q)], t) && q in t.queue;
    } else {
      forall after, t | Reach(m, after, t)
        ensures q !in t.queue
      {
        CancelSettles(clock, before, s, q, after, t);
      }
    }
  }

  /** A whole run in which it happens: the timer created by another thread runs although cancelled. */
  lemma CancelMayOvertake()
    ensures exists es, t :: && Reach(Init(1), es, t) && |es| > 1 && es[1] == Cancel(1)
                            && Count(t.log, 1) == 1
  {
    var s1 := State(1, 1, map[1 := 0], map[1 := 5], map[], Idle, Disarmed, []);
    var es, t := OvertakenTimerRuns(s1);
    assert Apply(s1, Cancel(1)) == s1;
    ReachFirst(s1, Cancel(1), es, t);
    assert Apply(Init(1), Create(5, 0)) == s1;
    ReachFirst(Init(1), Create(5, 0), [Cancel(1)] + es, t);
    assert ([Create(5, 0)] + ([Cancel(1)] + es))[1] == Cancel(1);
  }

  lemma OvertakenTimerRuns(s1: State) returns (es: seq<Event>, t: State)
    requires s1 == State(1, 1, map[1 := 0], map[1 := 5], map[], Idle, Disarmed, [])
    ensures Reach(s1, es, t) && Count(t.log, 1) == 1
  {
    var s3 := State(1, 1, map[1 := 0], map[], map[1 := 5], Idle, Armed(101, 1), []);
    es, t := QueuedTimerRuns(s3.(clock := 10));
    ReachFirst(s3, Tick(9), es, t);
    es := [Tick(9)] + es;
    assert Apply(s1, Add(1)) == s3;
    ReachFirst(s1, Add(1), es, t);
    es := [Add(1)] + es;
  }

  lemma QueuedTimerRuns(s4: State) returns (es: seq<Event>, t: State)
    requires s4 == State(10, 1, map[1 := 0], map[], map[1 := 5], Idle, Armed(101, 1), [])
    ensures Reach(s4, es, t) && Count(t.log, 1) == 1
  {
    var batch := [Due(1, 5)];
    var s5 := State(10, 1, map[1 := 0], map[], map[], Firing(10, batch, 0, {}), Armed(101, 1), []);
    OneIsDue(s4, batch, s5);
    t := OneRuns(s5, batch);
    ReachOne(s5, RunNext);
    ReachFirst(s4, Begin(batch, 0), [RunNext], t);
    es := [Begin(batch, 0)] + [RunNext];
  }

  lemma OneIsDue(s4: State, batch: seq<Due>, s5: State)
    requires s4 == State(10, 1, map[1 := 0], map[], map[1 := 5], Idle, Armed(101, 1), []) && batch == [Due(1, 5)]
    requires s5 == State(10, 1, map[1 := 0], map[], map[], Firing(10, batch, 0, {}), Armed(101, 1), [])
    ensures Enabled(s4, Begin(batch, 0)) && Apply(s4, Begin(batch, 0)) == s5
  {
    assert batch[0].id == 1 && InBatch(1, batch, 0);
    assert 1 in Ids(batch);
    assert s4.queue - Ids(batch) == map[];
  }

  lemma OneRuns(s5: State, batch: seq<Due>) returns (t: State)
    requires batch == [Due(1, 5)]
    requires s5 == State(10, 1, map[1 := 0], map[], map[], Firing(10, batch, 0, {}), Armed(101, 1), [])
    ensures Enabled(s5, RunNext) && t == Apply(s5, RunNext) && Count(t.log, 1) == 1
  {
    t := Apply(s5, RunNext);
    assert t.log[..0] == [];
  }

  // ---- putting runs together ----

  lemma ReachFirst(s: State, e: Event, es: seq<Event>, t: State)
    requires Enabled(s, e) && Reach(Apply(s, e), es, t)
    ensures Reach(s, [e] + es, t)
  {
    assert ([e] + es)[1..] == es;
  }

  lemma ReachOne(s: State, e: Event)
    requires Enabled(s, e)
    ensures Reach(s, [e], Apply(s, e))
  {
    assert [e] == [e] + [];
    ReachFirst(s, e, [], Apply(s, e));
  }

  lemma {:induction false} ReachConcat(s: State, es: seq<Event>, m: State, fs: seq<Event>, t: State)
    requires Reach(s, es, m) && Reach(m, fs, t)
    ensures Reach(s, es + fs, t)
    decreases |es|
  {
    if es == [] {
      assert es + fs == fs;
    } else {
      ReachConcat(Apply(s, es[0]), es[1..], m, fs, t);
      assert es + fs == [es[0]] + (es[1..] + fs);
      ReachFirst(s, es[0], es[1..] + fs, t);
    }
  }

  lemma RunsOn(s: State, es: seq<Event>, m: State, fs: seq<Event>, t: State)
    requires Reach(s, es, m) && Reach(m, fs, t) && NoBegin(es) && NoBegin(fs)
    ensures Reach(s, es + fs, t) && NoBegin(es + fs)
  {
    ReachConcat(s, es, m, fs, t);
  }

  lemma RunsFirst(s: State, es: seq<Event>, t: State)
    requires Enabled(s, RunNext) && Reach(Apply(s, RunNext), es, t) && NoBegin(es)
    ensures Reach(s, [RunNext] + es, t) && NoBegin([RunNext] + es)
  {
    ReachFirst(s, RunNext, es, t);
  }

  lemma AlarmComplete(s: State, batch: seq<Due>, lag: nat, es: seq<Event>, m: State, t: State)
    requires Enabled(s, Begin(batch, lag)) && Reach(Apply(s, Begin(batch, lag)), es, m) && NoBegin(es)
    requires Enabled(m, Finish) && t == Apply(m, Finish)
    ensures t.phase.Idle? && NoBegin(es + [Finish])
    ensures Reach(Apply(s, Begin(batch, lag)), es + [Finish], t)
    ensures t.log == s.log + RunsOf(batch, s.clock)
  {
    ReachOne(m, Finish);
    ReachConcat(Apply(s, Begin(batch, lag)), es, m, [Finish], t);
    AlarmRunsBatch(s, batch, lag, es + [Finish], t);
  }
}
