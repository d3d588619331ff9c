/** The data of a timer queue: two ordered sets over hand-freed timer objects whose addresses
    are reused, and what it means that they stand for a state of TimerModel. */
module TimerIndex {
  import opened TimerModel

  /** No object lives at the very last address, which is what the sentry entry relies on. */
  const UINTPTR_MAX: nat := 0xFFFF_FFFF_FFFF_FFFF

  datatype TimerObject = TimerObject(expiration: int, interval: int, sequence: int)
  datatype Entry = Entry(when: int, timer: int)
  datatype TimerId = TimerId(timer: int, sequence: int)

  // ---- std::set<Entry>: a set that is walked in this order ----

  predicate Less(a: Entry, b: Entry) {
    a.when < b.when || (a.when == b.when && a.timer < b.timer)
  }

  ghost predicate IsFirst(timers: set<Entry>, e: Entry) {
    e in timers && forall x :: x in timers ==> x == e || Less(e, x)
  }

  lemma {:induction false} FirstExists(timers: set<Entry>)
    requires timers != {}
    ensures exists e :: IsFirst(timers, e)
  {
    var x :| x in timers;
    if timers == {x} {
      assert IsFirst(timers, x);
    } else {
      assert timers - {x} != {};
      FirstExists(timers - {x});
      var e :| IsFirst(timers - {x}, e);
      assert forall y :: y in timers ==> y == x || y in timers - {x};
      assert e != x && Entry(e.when, e.timer) != Entry(x.when, x.timer);
      assert if Less(e, x) then IsFirst(timers, e) else IsFirst(timers, x);
    }
  }

  /** begin() */
  method First(timers: set<Entry>) returns (e: Entry)
    requires timers != {}
    ensures IsFirst(timers, e)
  {
    FirstExists(timers);
    e :| e in timers && forall x :: x in timers ==> x == e || Less(e, x);
  }

  // ---- how the two sets and the heap stand for a queue of numbered timers ----

  /** Both ordered sets list exactly the timers of `queue`: one entry per number, under the
      address that number was issued with, where an object with that number lives. */
  ghost predicate Indexed(timers: set<Entry>, active: set<TimerId>, heap: map<int, TimerObject>,
                          issued: map<int, int>, queue: map<int, int>)
  {
    && (forall q :: q in queue ==>
          && q in issued && Entry(queue[q], issued[q]) in timers
          && issued[q] in heap && heap[issued[q]].sequence == q)
    && (forall e :: e in timers ==>
          && e.timer in heap
          && var q := heap[e.timer].sequence; q in queue && q in issued && e == Entry(queue[q], issued[q]))
    && (forall x :: x in active <==> x.sequence in queue && x.sequence in issued && issued[x.sequence] == x.timer)
  }

  /** The live objects are exactly those numbered in `live`, with the expiration it gives. */
  ghost predicate HeapOk(heap: map<int, TimerObject>, issued: map<int, int>, live: map<int, int>) {
    && (forall q :: q in live ==>
          && q in issued && issued[q] in heap
          && heap[issued[q]].sequence == q && heap[issued[q]].expiration == live[q])
    && (forall a :: a in heap ==>
          && 0 < a < UINTPTR_MAX
          && heap[a].sequence in live && issued[heap[a].sequence] == a)
  }

  ghost predicate KnowsIntervals(heap: map<int, TimerObject>, intervals: map<int, int>) {
    forall a :: a in heap ==> heap[a].sequence in intervals && heap[a].interval == intervals[heap[a].sequence]
  }

  ghost function Batch(s: State): seq<Due> {
    if s.phase.Firing? then s.phase.batch else []
  }

  /** live is what the machine still needs: pending and queued timers and the current batch. */
  ghost predicate IsLive(live: map<int, int>, pending: map<int, int>, queue: map<int, int>, batch: seq<Due>) {
    && (forall q :: q in live ==> q in pending || q in queue || InBatch(q, batch, 0))
    && (forall q :: q in pending ==> q in live && live[q] == pending[q])
    && (forall q :: q in queue ==> q in live && live[q] == queue[q])
    && (forall k :: 0 <= k < |batch| ==> batch[k].id in live && live[batch[k].id] == batch[k].expiration)
  }

  /** Objects, ordered sets and numbering together stand for the machine state s. */
  ghost predicate Represents(heap: map<int, TimerObject>, timers: set<Entry>, active: set<TimerId>,
                             issued: map<int, int>, live: map<int, int>, s: State)
  {
    && issued.Keys == s.intervals.Keys
    && HeapOk(heap, issued, live)
    && KnowsIntervals(heap, s.intervals)
    && IsLive(live, s.pending, s.queue, Batch(s))
    && Indexed(timers, active, heap, issued, s.queue)
  }

  /** For the timers of the current batch, the cancel set says which the machine has canceled. */
  ghost predicate CancelsMatch(canceling: set<TimerId>, issued: map<int, int>, s: State) {
    s.phase.Firing? ==>
      forall q :: q in s.phase.canceled || q in Ids(s.phase.batch) ==>
        q in issued && (TimerId(issued[q], q) in canceling <==> q in s.phase.canceled)
  }

  lemma HeapNew(heap: map<int, TimerObject>, issued: map<int, int>, live: map<int, int>, a: int, t: TimerObject)
    requires HeapOk(heap, issued, live)
    requires 0 < a < UINTPTR_MAX && a !in heap && t.sequence !in issued
    ensures HeapOk(heap[a := t], issued[t.sequence := a], live[t.sequence := t.expiration])
  {
  }

  lemma IndexNew(timers: set<Entry>, active: set<TimerId>, heap: map<int, TimerObject>,
                 issued: map<int, int>, queue: map<int, int>, a: int, t: TimerObject)
    requires Indexed(timers, active, heap, issued, queue)
    requires a !in heap && t.sequence !in issued
    ensures Indexed(timers, active, heap[a := t], issued[t.sequence := a], queue)
  {
  }

  lemma LiveNew(live: map<int, int>, pending: map<int, int>, queue: map<int, int>, batch: seq<Due>, q: int, when: int)
    requires IsLive(live, pending, queue, batch) && q !in live
    ensures IsLive(live[q := when], pending[q := when], queue, batch)
  {
  }

  lemma AfterCreate(heap: map<int, TimerObject>, timers: set<Entry>, active: set<TimerId>,
                    issued: map<int, int>, live: map<int, int>, canceling: set<TimerId>, s: State,
                    a: int, q: int, when: int, interval: int)
    requires Represents(heap, timers, active, issued, live, s) && Placed(s) && CancelsMatch(canceling, issued, s)
    requires 0 < a < UINTPTR_MAX && a !in heap && q == s.created + 1
    ensures Represents(heap[a := TimerObject(when, interval, q)], timers, active, issued[q := a], live[q := when],
                       Apply(s, Create(when, interval)))
    ensures Placed(Apply(s, Create(when, interval)))
    ensures CancelsMatch(canceling, issued[q := a], Apply(s, Create(when, interval)))
  {
    PlacedStep(s, Create(when, interval));
    var t := TimerObject(when, interval, q);
    HeapNew(heap, issued, live, a, t);
    IndexNew(timers, active, heap, issued, s.queue, a, t);
    LiveNew(live, s.pending, s.queue, Batch(s), q, when);
    assert KnowsIntervals(heap[a := t], s.intervals[q := interval]);
  }

  lemma IndexInsert(timers: set<Entry>, active: set<TimerId>, heap: map<int, TimerObject>,
                    issued: map<int, int>, queue: map<int, int>, a: int)
    requires Indexed(timers, active, heap, issued, queue)
    requires a in heap && heap[a].sequence in issued && issued[heap[a].sequence] == a
    requires heap[a].sequence !in queue
    ensures var e := Entry(heap[a].expiration, a);
            && e !in timers
            && Indexed(timers + {e}, active + {TimerId(a, heap[a].sequence)}, heap, issued,
                       queue[heap[a].sequence := e.when])
  {
  }

  lemma AfterAdd(heap: map<int, TimerObject>, timers: set<Entry>, active: set<TimerId>,
                 issued: map<int, int>, live: map<int, int>, canceling: set<TimerId>, s: State, a: int)
    requires Represents(heap, timers, active, issued, live, s) && Placed(s) && CancelsMatch(canceling, issued, s)
    requires a in heap && heap[a].sequence in s.pending
    ensures var e := Entry(heap[a].expiration, a);
            Represents(heap, timers + {e}, active + {TimerId(a, heap[a].sequence)}, issued, live,
                       Apply(s, Add(heap[a].sequence)))
    ensures Placed(Apply(s, Add(heap[a].sequence)))
    ensures CancelsMatch(canceling, issued, Apply(s, Add(heap[a].sequence)))
  {
    PlacedStep(s, Add(heap[a].sequence));
    IndexInsert(timers, active, heap, issued, s.queue, a);
  }

  lemma IndexErase(timers: set<Entry>, active: set<TimerId>, heap: map<int, TimerObject>,
                   issued: map<int, int>, queue: map<int, int>, a: int)
    requires Indexed(timers, active, heap, issued, queue)
    requires a in heap && heap[a].sequence in issued && issued[heap[a].sequence] == a
    requires heap[a].sequence in queue
    ensures var e := Entry(queue[heap[a].sequence], a);
            && e in timers
            && Indexed(timers - {e}, active - {TimerId(a, heap[a].sequence)}, heap - {a}, issued,
                       queue - {heap[a].sequence})
  {
  }

  lemma AfterCancel(heap: map<int, TimerObject>, timers: set<Entry>, active: set<TimerId>,
                    issued: map<int, int>, live: map<int, int>, canceling: set<TimerId>, s: State, id: TimerId)
    requires Represents(heap, timers, active, issued, live, s) && Placed(s) && CancelsMatch(canceling, issued, s)
    requires id in active
    ensures && id.timer in heap && heap[id.timer].sequence == id.sequence
            && Entry(heap[id.timer].expiration, id.timer) in timers
            && Represents(heap - {id.timer}, timers - {Entry(heap[id.timer].expiration, id.timer)}, active - {id},
                          issued, live - {id.sequence}, Apply(s, Cancel(id.sequence)))
    ensures Placed(Apply(s, Cancel(id.sequence)))
    ensures CancelsMatch(canceling, issued, Apply(s, Cancel(id.sequence)))
  {
    PlacedStep(s, Cancel(id.sequence));
    IndexErase(timers, active, heap, issued, s.queue, id.timer);
  }

  /** An id that is not queued: dead, stale, in the current batch, pending, or never issued. */
  lemma AfterMiss(heap: map<int, TimerObject>, timers: set<Entry>, active: set<TimerId>,
                  issued: map<int, int>, live: map<int, int>, canceling: set<TimerId>, s: State, id: TimerId, t: State)
    requires Represents(heap, timers, active, issued, live, s) && Placed(s) && CancelsMatch(canceling, issued, s)
    requires id !in active
    requires t == if id.sequence in issued && issued[id.sequence] == id.timer then Apply(s, Cancel(id.sequence)) else s
    ensures Represents(heap, timers, active, issued, live, t) && Placed(t)
    ensures CancelsMatch(if s.phase.Firing? then canceling + {id} else canceling, issued, t)
    ensures t.clock == s.clock && t.alarm == s.alarm && t.created == s.created && t.phase.Firing? == s.phase.Firing?
  {
  }

  /** The first list entry is the earliest timer of the queue. */
  lemma HeadIsEarliest(timers: set<Entry>, active: set<TimerId>, heap: map<int, TimerObject>,
                       issued: map<int, int>, queue: map<int, int>)
    requires Indexed(timers, active, heap, issued, queue)
    ensures timers == {} <==> queue == map[]
    ensures forall e :: IsFirst(timers, e) ==> e.when == Earliest(queue)
  {
    if queue != map[] {
      EarliestIsThere(queue);
      var q :| q in queue && queue[q] == Earliest(queue);
      assert Entry(queue[q], issued[q]) in timers;
    }
  }

  /** The source asserts around every operation that the two sets have the same size. */
  lemma {:induction false} SameSize(timers: set<Entry>, active: set<TimerId>, heap: map<int, TimerObject>,
                                    issued: map<int, int>, queue: map<int, int>)
    requires Indexed(timers, active, heap, issued, queue)
    ensures |timers| == |active|
    decreases queue.Keys
  {
    if queue == map[] {
      assert timers == {} && active == {};
    } else {
      SomeKey(queue);
      var q :| q in queue;
      IndexErase(timers, active, heap, issued, queue, issued[q]);
      SameSize(timers - {Entry(queue[q], issued[q])}, active - {TimerId(issued[q], q)},
               heap - {issued[q]}, issued, queue - {q});
    }
  }

  // ---- taking a batch out and putting it back ----

  ghost function BatchOf(expired: seq<Entry>, heap: map<int, TimerObject>): (batch: seq<Due>)
    requires forall i :: 0 <= i < |expired| ==> expired[i].timer in heap
    ensures |batch| == |expired|
  {
    seq(|expired|, i requires 0 <= i < |expired| => Due(heap[expired[i].timer].sequence, expired[i].when))
  }

  ghost function EntriesOf(expired: seq<Entry>): set<Entry> {
    set i | 0 <= i < |expired| :: expired[i]
  }

  /** Up to index n of the batch, the ids the queue lists them under. */
  ghost function IdsOf(expired: seq<Entry>, heap: map<int, TimerObject>, n: nat): set<TimerId>
    requires n <= |expired| && forall i :: 0 <= i < |expired| ==> expired[i].timer in heap
  {
    set i | 0 <= i < n :: TimerId(expired[i].timer, heap[expired[i].timer].sequence)
  }

  /** expired is everything in timers up to now, in order. */
  ghost predicate IsExpired(timers: set<Entry>, now: int, expired: seq<Entry>) {
    && (forall i :: 0 <= i < |expired| ==> expired[i] in timers && expired[i].when <= now)
    && (forall i, j :: 0 <= i < j < |expired| ==> Less(expired[i], expired[j]))
    && (forall e :: e in timers && e.when <= now ==> e in expired)
  }

  lemma ExpiredIsDue(timers: set<Entry>, active: set<TimerId>, heap: map<int, TimerObject>,
                     issued: map<int, int>, queue: map<int, int>, now: int, expired: seq<Entry>)
    requires Indexed(timers, active, heap, issued, queue) && IsExpired(timers, now, expired)
    ensures forall i :: 0 <= i < |expired| ==> expired[i].timer in heap
    ensures IsDueBatch(queue, now, BatchOf(expired, heap))
  {
    var batch := BatchOf(expired, heap);
    forall i, j | 0 <= i < j < |batch|
      ensures batch[i].id != batch[j].id && batch[i].expiration <= batch[j].expiration
    {
      assert Less(expired[i], expired[j]);
    }
    forall q | q in queue && queue[q] <= now
      ensures InBatch(q, batch, 0)
    {
      var k :| 0 <= k < |expired| && expired[k] == Entry(queue[q], issued[q]);
      assert batch[k].id == q;
    }
  }

  lemma BatchNames(timers: set<Entry>, active: set<TimerId>, heap: map<int, TimerObject>,
                   issued: map<int, int>, queue: map<int, int>, expired: seq<Entry>)
    requires Indexed(timers, active, heap, issued, queue)
    requires forall i :: 0 <= i < |expired| ==> expired[i] in timers && expired[i].timer in heap
    ensures Names(expired, BatchOf(expired, heap), issued)
  {
    forall k | 0 <= k < |expired|
      ensures heap[expired[k].timer].sequence in issued && issued[heap[expired[k].timer].sequence] == expired[k].timer
    {
      var e := expired[k];
      assert e in timers && e.timer in heap;
    }
  }

  /** Each entry still refers to the object that was issued with its address. */
  ghost predicate Names(expired: seq<Entry>, batch: seq<Due>, issued: map<int, int>) {
    && |expired| == |batch|
    && forall k :: 0 <= k < |expired| ==> batch[k].id in issued && expired[k].timer == issued[batch[k].id]
  }

  /** The sets lose the same timers. */
  lemma ExpiredLeaves(timers: set<Entry>, active: set<TimerId>, heap: map<int, TimerObject>,
                      issued: map<int, int>, queue: map<int, int>, expired: seq<Entry>)
    requires Indexed(timers, active, heap, issued, queue)
    requires forall i :: 0 <= i < |expired| ==> expired[i] in timers && expired[i].timer in heap
    ensures Indexed(timers - EntriesOf(expired), active - IdsOf(expired, heap, |expired|), heap, issued,
                    queue - Ids(BatchOf(expired, heap)))
  {
    var batch := BatchOf(expired, heap);
    forall q | q in queue
      ensures q in Ids(batch) <==> Entry(queue[q], issued[q]) in EntriesOf(expired)
      ensures q in Ids(batch) <==> TimerId(issued[q], q) in IdsOf(expired, heap, |expired|)
    {
      LeavesTogether(timers, active, heap, issued, queue, expired, q);
    }
  }

  lemma LeavesTogether(timers: set<Entry>, active: set<TimerId>, heap: map<int, TimerObject>,
                       issued: map<int, int>, queue: map<int, int>, expired: seq<Entry>, q: int)
    requires Indexed(timers, active, heap, issued, queue) && q in queue
    requires forall i :: 0 <= i < |expired| ==> expired[i] in timers && expired[i].timer in heap
    ensures q in Ids(BatchOf(expired, heap)) <==> Entry(queue[q], issued[q]) in EntriesOf(expired)
    ensures q in Ids(BatchOf(expired, heap)) <==> TimerId(issued[q], q) in IdsOf(expired, heap, |expired|)
  {
    var batch := BatchOf(expired, heap);
    if k :| 0 <= k < |batch| && batch[k].id == q {
      assert expired[k] in timers && expired[k] == Entry(queue[q], issued[q]);
      assert TimerId(expired[k].timer, heap[expired[k].timer].sequence) == TimerId(issued[q], q);
    }
    if k :| 0 <= k < |expired| && expired[k] == Entry(queue[q], issued[q]) {
      assert batch[k].id == q;
    }
    if k :| 0 <= k < |expired| && TimerId(expired[k].timer, heap[expired[k].timer].sequence) == TimerId(issued[q], q) {
      assert batch[k].id == q;
    }
  }

  lemma AfterBegin(heap: map<int, TimerObject>, timers: set<Entry>, active: set<TimerId>,
                   issued: map<int, int>, live: map<int, int>, s: State, expired: seq<Entry>, lag: nat)
    requires Represents(heap, timers, active, issued, live, s) && Placed(s) && s.phase.Idle?
    requires IsExpired(timers, s.clock, expired)
    ensures forall i :: 0 <= i < |expired| ==> expired[i].timer in heap
    ensures var e := Begin(BatchOf(expired, heap), lag);
            && Enabled(s, e) && Placed(Apply(s, e)) && CancelsMatch({}, issued, Apply(s, e))
            && Represents(heap, timers - EntriesOf(expired), active - IdsOf(expired, heap, |expired|),
                          issued, live, Apply(s, e))
  {
    ExpiredIsDue(timers, active, heap, issued, s.queue, s.clock, expired);
    ExpiredLeaves(timers, active, heap, issued, s.queue, expired);
    PlacedStep(s, Begin(BatchOf(expired, heap), lag));
  }

  /** Between alarms a live timer that is in neither set is one whose insertion is still queued. */
  lemma InactiveIsPending(heap: map<int, TimerObject>, timers: set<Entry>, active: set<TimerId>,
                          issued: map<int, int>, live: map<int, int>, s: State, a: int)
    requires Represents(heap, timers, active, issued, live, s) && s.phase.Idle?
    requires a in heap && TimerId(a, heap[a].sequence) !in active
    ensures heap[a].sequence in s.pending
  {
    var q := heap[a].sequence;
    assert q in live && q in issued && issued[q] == a;
  }

  ghost function RestartedOf(s: State, ids: set<int>): map<int, int>
    requires s.phase.Firing?
  {
    map q | q in ids && s.Repeats(q) && q !in s.phase.canceled :: s.phase.now + s.Interval(q)
  }

  /** The queue after the first n timers of the batch have been put back or freed. */
  ghost function Requeued(s: State, n: nat): map<int, int>
    requires s.phase.Firing? && n <= |s.phase.batch|
  {
    s.queue + RestartedOf(s, Ids(s.phase.batch[..n]))
  }

  /** In the middle of it: queue is what the sets hold, rest the timers not dealt with yet. */
  ghost predicate Resetting(heap: map<int, TimerObject>, timers: set<Entry>, active: set<TimerId>,
                            issued: map<int, int>, live: map<int, int>,
                            s: State, queue: map<int, int>, rest: seq<Due>)
  {
    && issued.Keys == s.intervals.Keys
    && HeapOk(heap, issued, live)
    && KnowsIntervals(heap, s.intervals)
    && IsLive(live, s.pending, queue, rest)
    && Indexed(timers, active, heap, issued, queue)
  }

  lemma ResetEnds(heap: map<int, TimerObject>, timers: set<Entry>, active: set<TimerId>,
                  issued: map<int, int>, live: map<int, int>, s: State)
    requires Placed(s) && Enabled(s, Finish)
    requires Resetting(heap, timers, active, issued, live, s, Apply(s, Finish).queue, [])
    ensures Represents(heap, timers, active, issued, live, Apply(s, Finish)) && Placed(Apply(s, Finish))
    ensures Indexed(timers, active, heap, issued, Apply(s, Finish).queue)
  {
    PlacedStep(s, Finish);
  }

  lemma IdsNext(batch: seq<Due>, n: nat)
    requires n < |batch|
    ensures Ids(batch[..n + 1]) == Ids(batch[..n]) + {batch[n].id}
  {
    forall q | q in Ids(batch[..n])
      ensures q in Ids(batch[..n + 1])
    {
      var k :| 0 <= k < n && batch[..n][k].id == q;
      assert batch[..n + 1][k].id == q;
    }
    assert batch[..n + 1][n].id == batch[n].id;
  }

  lemma RestartedMore(s: State, ids: set<int>, q: int)
    requires s.phase.Firing? && q !in ids && q !in s.queue
    ensures q !in s.queue + RestartedOf(s, ids)
    ensures s.queue + RestartedOf(s, ids + {q})
            == if s.Repeats(q) && q !in s.phase.canceled
               then (s.queue + RestartedOf(s, ids))[q := s.phase.now + s.Interval(q)]
               else s.queue + RestartedOf(s, ids)
  {
    if s.Repeats(q) && q !in s.phase.canceled {
      assert RestartedOf(s, ids + {q}) == RestartedOf(s, ids)[q := s.phase.now + s.Interval(q)];
    } else {
      assert RestartedOf(s, ids + {q}) == RestartedOf(s, ids);
    }
  }

  lemma RequeuedNext(s: State, n: nat)
    requires Placed(s) && s.phase.Firing? && n < |s.phase.batch|
    ensures Stage(s, n, Requeued(s, n), Requeued(s, n + 1))
  {
    var batch := s.phase.batch;
    IdsNext(batch, n);
    forall q | q in Ids(batch[..n])
      ensures q != batch[n].id
    {
      var k :| 0 <= k < n && batch[..n][k].id == q;
      assert batch[k].id != batch[n].id;
    }
    RestartedMore(s, Ids(batch[..n]), batch[n].id);
  }

  /** What dealing with timer i of the batch makes of the queue. */
  ghost predicate Stage(s: State, i: nat, before: map<int, int>, after: map<int, int>)
    requires s.phase.Firing? && i < |s.phase.batch|
  {
    var q := s.phase.batch[i].id;
    && q !in before
    && after == if s.Repeats(q) && q !in s.phase.canceled then before[q := s.phase.now + s.Interval(q)] else before
  }

  /** The queue as the batch is dealt with, one timer after the other. */
  ghost predicate IsStages(s: State, stages: seq<map<int, int>>)
    requires s.phase.Firing?
  {
    && |stages| == |s.phase.batch| + 1
    && stages[0] == s.queue
    && forall i :: 0 <= i < |s.phase.batch| ==> Stage(s, i, stages[i], stages[i + 1])
  }

  lemma FirstStage(s: State)
    requires s.phase.Firing?
    ensures Requeued(s, 0) == s.queue
  {
    assert Ids(s.phase.batch[..0]) == {};
  }

  lemma LastStage(s: State)
    requires Enabled(s, Finish)
    ensures Requeued(s, |s.phase.batch|) == Apply(s, Finish).queue
  {
    assert s.phase.batch[..|s.phase.batch|] == s.phase.batch;
  }

  lemma StagesOf(s: State) returns (stages: seq<map<int, int>>)
    requires Placed(s) && Enabled(s, Finish)
    ensures IsStages(s, stages)
    ensures stages[|s.phase.batch|] == Apply(s, Finish).queue
  {
    stages := seq(|s.phase.batch| + 1, i requires 0 <= i <= |s.phase.batch| => Requeued(s, i));
    FirstStage(s);
    LastStage(s);
    forall i | 0 <= i < |s.phase.batch|
      ensures Stage(s, i, stages[i], stages[i + 1])
    {
      RequeuedNext(s, i);
    }
  }

  lemma LiveDone(live: map<int, int>, pending: map<int, int>, queue: map<int, int>, rest: seq<Due>)
    requires IsLive(live, pending, queue, rest) && rest != []
    requires rest[0].id !in pending && rest[0].id !in queue
    requires forall k :: 0 < k < |rest| ==> rest[k].id != rest[0].id
    ensures IsLive(live - {rest[0].id}, pending, queue, rest[1..])
  {
    forall q | q in live && q != rest[0].id && q !in pending && q !in queue
      ensures InBatch(q, rest[1..], 0)
    {
      var k :| 0 <= k < |rest| && rest[k].id == q;
      assert rest[1..][k - 1].id == q;
    }
  }

  /** Timer rest[0] is freed. */
  lemma ResetDelete(heap: map<int, TimerObject>, timers: set<Entry>, active: set<TimerId>, issued: map<int, int>,
                    live: map<int, int>, s: State, queue: map<int, int>, rest: seq<Due>, a: int)
    requires Resetting(heap, timers, active, issued, live, s, queue, rest) && rest != []
    requires rest[0].id !in s.pending && rest[0].id !in queue
    requires forall k :: 0 < k < |rest| ==> rest[k].id != rest[0].id
    requires a in heap && heap[a].sequence == rest[0].id
    ensures Resetting(heap - {a}, timers, active, issued, live - {rest[0].id}, s, queue, rest[1..])
  {
    LiveDone(live, s.pending, queue, rest);
    HeapFree(heap, issued, live, rest[0].id);
    IndexOther(timers, active, heap, heap - {a}, issued, queue, a);
  }

  lemma HeapFree(heap: map<int, TimerObject>, issued: map<int, int>, live: map<int, int>, q: int)
    requires HeapOk(heap, issued, live) && q in live
    ensures HeapOk(heap - {issued[q]}, issued, live - {q})
  {
  }

  lemma IndexOther(timers: set<Entry>, active: set<TimerId>, heap: map<int, TimerObject>, after: map<int, TimerObject>,
                   issued: map<int, int>, queue: map<int, int>, a: int)
    requires Indexed(timers, active, heap, issued, queue)
    requires a in heap && heap[a].sequence !in queue
    requires forall b :: b in heap && b != a ==> b in after && after[b] == heap[b]
    ensures Indexed(timers, active, after, issued, queue)
  {
  }

  lemma HeapRestart(heap: map<int, TimerObject>, issued: map<int, int>, live: map<int, int>, a: int, t: TimerObject)
    requires HeapOk(heap, issued, live) && a in heap && t.sequence == heap[a].sequence
    ensures HeapOk(heap[a := t], issued, live[t.sequence := t.expiration])
  {
  }

  lemma LiveRestart(live: map<int, int>, pending: map<int, int>, queue: map<int, int>, rest: seq<Due>, q: int, e: int)
    requires IsLive(live - {q}, pending, queue, rest) && q !in queue && q !in pending
    requires forall k :: 0 <= k < |rest| ==> rest[k].id != q
    ensures IsLive(live[q := e], pending, queue[q := e], rest)
  {
    forall p | p in live[q := e] && p !in pending && p !in queue[q := e]
      ensures InBatch(p, rest, 0)
    {
      assert p in live - {q};
    }
  }

  /** Timer rest[0] gets expiration t.expiration and goes back into both sets. */
  lemma ResetRestart(heap: map<int, TimerObject>, timers: set<Entry>, active: set<TimerId>, issued: map<int, int>,
                     live: map<int, int>, s: State, queue: map<int, int>, rest: seq<Due>, a: int, t: TimerObject)
    requires Resetting(heap, timers, active, issued, live, s, queue, rest) && rest != []
    requires rest[0].id !in s.pending && rest[0].id !in queue
    requires forall k :: 0 < k < |rest| ==> rest[k].id != rest[0].id
    requires a in heap && heap[a].sequence == t.sequence == rest[0].id && heap[a].interval == t.interval
    ensures Indexed(timers, active, heap[a := t], issued, queue)
    ensures Resetting(heap[a := t], timers + {Entry(t.expiration, a)}, active + {TimerId(a, t.sequence)}, issued,
                      live[t.sequence := t.expiration], s, queue[t.sequence := t.expiration], rest[1..])
  {
    LiveDone(live, s.pending, queue, rest);
    LiveRestart(live, s.pending, queue, rest[1..], t.sequence, t.expiration);
    HeapRestart(heap, issued, live, a, t);
    IndexOther(timers, active, heap, heap[a := t], issued, queue, a);
    IndexInsert(timers, active, heap[a := t], issued, queue, a);
  }

  /** The object of the next timer is still there, untouched, whatever the callbacks did. */
  lemma NextAlive(heap: map<int, TimerObject>, timers: set<Entry>, active: set<TimerId>, issued: map<int, int>,
                  live: map<int, int>, canceling: set<TimerId>, s: State, queue: map<int, int>, n: nat)
    requires Placed(s) && s.phase.Firing? && n < |s.phase.batch|
    requires Resetting(heap, timers, active, issued, live, s, queue, s.phase.batch[n..])
    requires CancelsMatch(canceling, issued, s)
    ensures var q := s.phase.batch[n].id;
            && q !in s.pending && q in issued && issued[q] in heap
            && heap[issued[q]].sequence == q && heap[issued[q]].interval == s.Interval(q)
            && (TimerId(issued[q], q) in canceling <==> q in s.phase.canceled)
    ensures forall k :: 0 < k < |s.phase.batch[n..]| ==> s.phase.batch[n..][k].id != s.phase.batch[n].id
  {
    assert s.phase.batch[n..][0] == s.phase.batch[n];
    assert s.phase.batch[n].id in Ids(s.phase.batch);
  }

  lemma AfterRun(heap: map<int, TimerObject>, timers: set<Entry>, active: set<TimerId>, issued: map<int, int>,
                 live: map<int, int>, canceling: set<TimerId>, s: State)
    requires Represents(heap, timers, active, issued, live, s) && Placed(s) && CancelsMatch(canceling, issued, s)
    requires Enabled(s, RunNext)
    ensures var q := s.phase.batch[s.phase.done].id;
            q in issued && issued[q] in heap && heap[issued[q]].sequence == q
    ensures Represents(heap, timers, active, issued, live, Apply(s, RunNext))
    ensures Placed(Apply(s, RunNext)) && CancelsMatch(canceling, issued, Apply(s, RunNext))
  {
    assert s.phase.batch[s.phase.done].id in live;
  }
}
