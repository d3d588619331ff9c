/** Channels, and the epoll poller that must keep the kernel's interest list in step with them. */
module Pollers {
  import opened PollEvents

  const NONE_EVENT: set<PollEvent> := {}
  const READ_EVENT: set<PollEvent> := {IN, PRI}
  const WRITE_EVENT: set<PollEvent> := {OUT}
  const INIT_EVENT_LIST_SIZE: nat := 16

  datatype Ctl = CtlAdd | CtlMod | CtlDel

  /** An entry of the kernel's interest list: the mask, and the pointer handed back with events. */
  datatype Registration = Registration(mask: set<PollEvent>, channel: Channel)

  class Channel {
    const fd: int
    var events: set<PollEvent>
    var revents: set<PollEvent>
    var index: Index
    var addedToLoop: bool

    constructor (poller: EPollPoller, fd: int)
      requires poller.Valid()
      modifies poller`known
      ensures poller.Valid() && poller.known == old(poller.known) + {this}
      ensures this.fd == fd && events == NONE_EVENT && index == New && !addedToLoop
    {
      this.fd := fd;
      events, revents, index, addedToLoop := NONE_EVENT, NONE_EVENT, New, false;
      new;
      poller.known := poller.known + {this};
    }

    predicate IsNoneEvent() reads this { events == NONE_EVENT }
    predicate IsWriting() reads this { events * WRITE_EVENT != {} }
    predicate IsReading() reads this { events * READ_EVENT != {} }

    /** The five interest operations: change the mask, then tell the poller. */
    method EnableReading(poller: EPollPoller)
      requires poller.Valid() && poller.MayUpdate(this)
      modifies this, poller
      ensures poller.Valid() && poller.Updated(this, old(events) + READ_EVENT)
      ensures poller.SameOthers(this)
      ensures index == IndexAfter(old(index), IsNoneEvent())
      ensures IsReading() && IsWriting() == old(IsWriting())
    {
      events := events + READ_EVENT;
      Update(poller);
      assert IN in events * READ_EVENT;
    }

    method DisableReading(poller: EPollPoller)
      requires poller.Valid() && poller.MayUpdate(this)
      modifies this, poller
      ensures poller.Valid() && poller.Updated(this, old(events) - READ_EVENT)
      ensures poller.SameOthers(this)
      ensures index == IndexAfter(old(index), IsNoneEvent())
      ensures !IsReading() && IsWriting() == old(IsWriting())
    {
      events := events - READ_EVENT;
      Update(poller);
    }

    method EnableWriting(poller: EPollPoller)
      requires poller.Valid() && poller.MayUpdate(this)
      modifies this, poller
      ensures poller.Valid() && poller.Updated(this, old(events) + WRITE_EVENT)
      ensures poller.SameOthers(this)
      ensures index == IndexAfter(old(index), IsNoneEvent())
      ensures IsWriting() && IsReading() == old(IsReading())
    {
      events := events + WRITE_EVENT;
      Update(poller);
      assert OUT in events * WRITE_EVENT;
    }

    method DisableWriting(poller: EPollPoller)
      requires poller.Valid() && poller.MayUpdate(this)
      modifies this, poller
      ensures poller.Valid() && poller.Updated(this, old(events) - WRITE_EVENT)
      ensures poller.SameOthers(this)
      ensures index == IndexAfter(old(index), IsNoneEvent())
      ensures !IsWriting() && IsReading() == old(IsReading())
    {
      events := events - WRITE_EVENT;
      Update(poller);
    }

    method DisableAll(poller: EPollPoller)
      requires poller.Valid() && poller.MayUpdate(this)
      modifies this, poller
      ensures poller.Valid() && poller.Updated(this, NONE_EVENT)
      ensures poller.SameOthers(this)
      ensures index == IndexAfter(old(index), IsNoneEvent())
    {
      events := NONE_EVENT;
      Update(poller);
    }

    method Update(poller: EPollPoller)
      requires poller.ValidBut({this}) && poller.MayUpdate(this)
      modifies this`addedToLoop, this`index, poller
      ensures poller.Valid() && poller.Updated(this, events)
      ensures poller.SameOthers(this) && addedToLoop
      ensures index == IndexAfter(old(index), IsNoneEvent())
    {
      addedToLoop := true;
      poller.UpdateChannel(this);
    }

    method Remove(poller: EPollPoller)
      requires poller.Valid() && poller.Holds(this) && IsNoneEvent()
      modifies this, poller
      ensures poller.Valid() && index == New && !addedToLoop && events == NONE_EVENT
      ensures fd !in poller.channels && poller.Interest(fd) == NONE_EVENT
      ensures poller.SameOthers(this)
    {
      addedToLoop := false;
      poller.RemoveChannel(this);
    }
  }

  class EPollPoller {
    var channels: map<int, Channel>
    var eventListSize: nat
    // the kernel side of the epoll descriptor
    var kernel: map<int, Registration>
    // every channel made for this poller
    ghost var known: set<Channel>

    constructor ()
      ensures Valid() && channels == map[] && kernel == map[] && known == {}
    {
      channels, eventListSize, kernel, known := map[], INIT_EVENT_LIST_SIZE, map[], {};
    }

    ghost predicate Holds(c: Channel)
      reads this
    {
      c.fd in channels && channels[c.fd] == c
    }

    /** What the kernel watches a descriptor for; nothing if it is not registered. */
    function Interest(fd: int): set<PollEvent>
      reads this
    {
      if fd in kernel then kernel[fd].mask else NONE_EVENT
    }

    /** Everything but the masks of the channels in `changing`. */
    ghost predicate ValidBut(changing: set<Channel>)
      reads this, known
    {
      Tables() && Masks(changing)
    }

    ghost predicate Tables()
      reads this, known
    {
      && eventListSize > 0
      && (forall fd :: fd in channels ==> channels[fd] in known && channels[fd].fd == fd)
      // the table holds exactly the channels with index kAdded or kDeleted
      && (forall c :: c in known ==> (c.index != New <==> Holds(c)))
      // the kernel has exactly those with index kAdded
      && (forall c :: c in known && Holds(c) ==> (c.index == Added <==> c.fd in kernel))
      && (forall fd :: fd in kernel ==> fd in channels && kernel[fd].channel == channels[fd])
    }

    /** The kernel watches each channel for exactly what it asks for. */
    ghost predicate Masks(changing: set<Channel>)
      reads this, known
    {
      && (forall c :: c in known && Holds(c) && c !in changing ==> Interest(c.fd) == c.events)
      && (forall c :: c in known && c.index == New && c !in changing ==> c.events == NONE_EVENT)
    }

    ghost predicate Valid()
      reads this, known
    {
      ValidBut({})
    }

    /** No other live channel uses the same descriptor. */
    ghost predicate MayUpdate(c: Channel)
      reads this, c
    {
      c in known && (c.index == New ==> c.fd !in channels)
    }

    ghost predicate Updated(c: Channel, events: set<PollEvent>)
      reads this, c
    {
      Holds(c) && c.events == events == Interest(c.fd)
    }

    twostate predicate SameOthers(c: Channel)
      reads this
    {
      && known == old(known)
      && (forall fd :: fd != c.fd ==>
            && (fd in channels <==> fd in old(channels))
            && (fd in channels ==> channels[fd] == old(channels[fd]))
            && (fd in kernel <==> fd in old(kernel))
            && (fd in kernel ==> kernel[fd] == old(kernel[fd])))
    }

    /** epoll_ctl: the source aborts when an add or a modify fails, so they must not. */
    method EpollCtl(op: Ctl, c: Channel)
      requires op == CtlAdd <==> c.fd !in kernel
      modifies this`kernel
      ensures kernel == if op == CtlDel then old(kernel) - {c.fd}
                        else old(kernel)[c.fd := Registration(c.events, c)]
    {
      kernel := if op == CtlDel then kernel - {c.fd} else kernel[c.fd := Registration(c.events, c)];
    }

    method UpdateChannel(c: Channel)
      requires ValidBut({c}) && MayUpdate(c)
      modifies this`channels, this`kernel, c`index
      ensures Valid() && Updated(c, c.events) && SameOthers(c)
      ensures c.index == IndexAfter(old(c.index), c.IsNoneEvent())
    {
      if c.index == New || c.index == Deleted {
        Register(c);
      } else {
        Reregister(c);
      }
    }

    /** kNew or kDeleted: into the table if need be, and into the kernel, whatever the mask. */
    method Register(c: Channel)
      requires ValidBut({c}) && MayUpdate(c) && c.index != Added
      modifies this`channels, this`kernel, c`index
      ensures Valid() && Updated(c, c.events) && SameOthers(c)
      ensures c.index == Added
    {
      assert c.fd !in kernel;
      if c.index == New {
        channels := channels[c.fd := c];
      }
      c.index := Added;
      EpollCtl(CtlAdd, c);
      TablesOn(c);
      MasksOn(c);
    }

    /** What Register has done. */
    twostate predicate Registered(c: Channel)
      reads this, known, c
    {
      && known == old(known) && eventListSize == old(eventListSize) && c in known
      && channels == old(channels)[c.fd := c] && kernel == old(kernel)[c.fd := Registration(c.events, c)]
      && c.index == Added && forall d :: d in known && d != c ==> d.index == old(d.index) && d.events == old(d.events)
    }

    twostate lemma TablesOn(c: Channel)
      requires old(Tables() && MayUpdate(c)) && old(c.index) != Added && Registered(c)
      ensures Tables()
    {
    }

    twostate lemma MasksOn(c: Channel)
      requires old(Tables() && Masks({c}) && MayUpdate(c)) && old(c.index) != Added && Registered(c)
      ensures Masks({})
    {
    }

    method Reregister(c: Channel)
      requires ValidBut({c}) && MayUpdate(c) && c.index == Added
      modifies this`channels, this`kernel, c`index
      ensures Valid() && Updated(c, c.events) && SameOthers(c)
      ensures c.index == if c.events == NONE_EVENT then Deleted else Added
    {
      if c.IsNoneEvent() {
        EpollCtl(CtlDel, c);
        c.index := Deleted;
      } else {
        EpollCtl(CtlMod, c);
      }
    }

    method RemoveChannel(c: Channel)
      requires Valid() && Holds(c) && c.IsNoneEvent() && c in known
      modifies this`channels, this`kernel, c`index
      ensures Valid() && c.index == New && c.fd !in channels && c.fd !in kernel && SameOthers(c)
    {
      channels := channels - {c.fd};
      if c.index == Added {
        EpollCtl(CtlDel, c);
      }
      c.index := New;
    }

    /** epoll_wait has reported `ready`; the pointers it hands back are those registered. The
        source asserts that each is the channel the table has for its descriptor. */
    method FillActiveChannels(ready: seq<(int, set<PollEvent>)>) returns (active: seq<Channel>)
      requires Valid() && |ready| <= eventListSize
      requires forall i :: 0 <= i < |ready| ==> ready[i].0 in kernel
      requires forall i, j :: 0 <= i < j < |ready| ==> ready[i].0 != ready[j].0
      modifies (set fd | fd in channels :: channels[fd])`revents
      ensures Valid() && |active| == |ready|
      ensures forall i :: 0 <= i < |active| ==>
                Holds(active[i]) && active[i].fd == ready[i].0 && active[i].revents == ready[i].1
      ensures forall c :: c in known && c !in active ==> c.revents == old(c.revents)
      ensures forall i, j :: 0 <= i < j < |active| ==> active[i] != active[j]
    {
      active := [];
      var i := 0;
      while i < |ready|
        invariant Valid() && |active| == i <= |ready|
        invariant kernel == old(kernel) && channels == old(channels)
        invariant forall k :: 0 <= k < i ==>
                    Holds(active[k]) && active[k].fd == ready[k].0 && active[k].revents == ready[k].1
        invariant forall c :: c in known && c !in active ==> c.revents == old(c.revents)
      {
        var fd := ready[i].0;
        assert fd in kernel && fd in channels;
        var channel := kernel[fd].channel;
        assert channel == channels[fd] && channel.fd == fd;
        channel.revents := ready[i].1;
        active := active + [channel];
        i := i + 1;
      }
    }

    /** poll: report the active channels, and make room for more when the list was full. */
    method Poll(ready: seq<(int, set<PollEvent>)>) returns (active: seq<Channel>)
      requires Valid() && |ready| <= eventListSize
      requires forall i :: 0 <= i < |ready| ==> ready[i].0 in kernel
      requires forall i, j :: 0 <= i < j < |ready| ==> ready[i].0 != ready[j].0
      modifies this`eventListSize, (set fd | fd in channels :: channels[fd])`revents
      ensures Valid() && |active| == |ready| && |ready| < eventListSize
      ensures forall i :: 0 <= i < |active| ==>
                Holds(active[i]) && active[i].fd == ready[i].0 && active[i].revents == ready[i].1
    {
      active := [];
      if |ready| > 0 {
        active := FillActiveChannels(ready);
        if |ready| == eventListSize {
          eventListSize := eventListSize * 2;
        }
      }
    }

    /** Every channel's mask with the kernel is what it asks for (a channel off the table asks for
        nothing), and only channels marked kAdded are registered. */
    lemma KernelAgrees(c: Channel)
      requires Valid() && c in known
      ensures Holds(c) ==> Interest(c.fd) == c.events
      ensures !Holds(c) ==> c.events == NONE_EVENT
      ensures c.index == Added <==> c.fd in kernel && kernel[c.fd].channel == c
    {
      if c.fd in kernel && kernel[c.fd].channel == c {
        assert channels[c.fd] == c;
      }
    }
  }

  // ---- any sequence of operations ----

  datatype Op = EnableRead | DisableRead | EnableWrite | DisableWrite | DisableEvery | Forget

  /** What a channel wants after an operation on it. */
  function After(op: Op, events: set<PollEvent>): set<PollEvent> {
    match op
    case EnableRead => events + READ_EVENT
    case DisableRead => events - READ_EVENT
    case EnableWrite => events + WRITE_EVENT
    case DisableWrite => events - WRITE_EVENT
    case DisableEvery => NONE_EVENT
    case Forget => events
  }

  lemma AsAsked(events: set<PollEvent>)
    ensures IN in After(EnableRead, events) && (OUT in After(EnableRead, events) <==> OUT in events)
    ensures IN !in After(DisableRead, events) && (OUT in After(DisableRead, events) <==> OUT in events)
    ensures OUT in After(EnableWrite, events) && (IN in After(EnableWrite, events) <==> IN in events)
    ensures OUT !in After(DisableWrite, events) && (IN in After(DisableWrite, events) <==> IN in events)
    ensures After(DisableEvery, events) == {} && After(Forget, events) == events
  {
  }

  /** What the i-th channel wants after a script of operations on several. */
  function WantsAfter(script: seq<(nat, Op)>, i: nat): set<PollEvent> {
    if |script| == 0 then NONE_EVENT
    else
      var before, last := WantsAfter(script[..|script| - 1], i), script[|script| - 1];
      if last.0 == i then After(last.1, before) else before
  }

  /** And where it then stands. */
  function StandsAfter(script: seq<(nat, Op)>, i: nat): Index {
    if |script| == 0 then New
    else
      var others, last := script[..|script| - 1], script[|script| - 1];
      if last.0 == i then Moved(last.1, StandsAfter(others, i), WantsAfter(others, i)) else StandsAfter(others, i)
  }

  function Moved(op: Op, index: Index, events: set<PollEvent>): Index {
    if op.Forget? then if events == NONE_EVENT then New else index
    else IndexAfter(index, After(op, events) == NONE_EVENT)
  }

  /** Channels of their own descriptors, that no other channel of the poller uses. */
  ghost predicate Apart(poller: EPollPoller, cs: seq<Channel>)
    reads poller
  {
    && (forall i :: 0 <= i < |cs| ==> cs[i] in poller.known)
    && (forall i, j :: 0 <= i < j < |cs| ==> cs[i] != cs[j] && cs[i].fd != cs[j].fd)
    && (forall i :: 0 <= i < |cs| && cs[i].fd in poller.channels ==> poller.Holds(cs[i]))
  }

  /** One operation; a channel is removed only if it is in the table and wants nothing, as the source
      asserts. */
  method Operate(poller: EPollPoller, c: Channel, op: Op)
    requires poller.Valid() && c in poller.known && (c.fd in poller.channels ==> poller.Holds(c))
    modifies poller, c
    ensures poller.Valid() && poller.SameOthers(c) && c.events == After(op, old(c.events))
    ensures c.fd in poller.channels ==> poller.Holds(c)
    ensures c.index == Moved(op, old(c.index), old(c.events))
    ensures op.Forget? && old(c.IsNoneEvent()) ==> c.index == New && c.fd !in poller.channels && c.fd !in poller.kernel
  {
    match op
    case EnableRead => c.EnableReading(poller);
    case DisableRead => c.DisableReading(poller);
    case EnableWrite => c.EnableWriting(poller);
    case DisableWrite => c.DisableWriting(poller);
    case DisableEvery => c.DisableAll(poller);
    case Forget =>
      if c.fd in poller.channels && c.IsNoneEvent() {
        c.Remove(poller);
      }
  }

  /** After any sequence of operations on any number of new channels the kernel watches each for
      exactly what its own operations ask, and index tells which are registered. */
  method Run(poller: EPollPoller, cs: seq<Channel>, script: seq<(nat, Op)>)
    requires poller.Valid() && Apart(poller, cs)
    requires forall i :: 0 <= i < |cs| ==> cs[i].index == New
    modifies poller, cs
    ensures poller.Valid() && Apart(poller, cs)
    ensures forall i :: 0 <= i < |cs| ==>
              && cs[i].events == poller.Interest(cs[i].fd) == WantsAfter(script, i)
              && cs[i].index == StandsAfter(script, i)
              && (cs[i].index == Added <==> cs[i].fd in poller.kernel)
  {
    var k := 0;
    assert script[..0] == [];
    while k < |script|
      invariant k <= |script| && poller.Valid() && Apart(poller, cs)
      invariant forall i :: 0 <= i < |cs| ==>
                  cs[i].events == WantsAfter(script[..k], i) && cs[i].index == StandsAfter(script[..k], i)
    {
      assert script[..k + 1][..k] == script[..k];
      if script[k].0 < |cs| {
        Operate(poller, cs[script[k].0], script[k].1);
      }
      k := k + 1;
    }
    assert script[..k] == script;
    forall i | 0 <= i < |cs|
      ensures cs[i].events == poller.Interest(cs[i].fd) && (cs[i].index == Added <==> cs[i].fd in poller.kernel)
    {
      Agreement(poller, cs[i]);
    }
  }

  /** A channel that has stopped asking for anything and is then told to ask for nothing is registered
      again, and the kernel, which reports hang-ups unasked, may report one. */
  method WatchedForNothing(fd: int) returns (active: seq<Channel>)
    ensures |active| == 1 && fresh(active[0]) && active[0].fd == fd
    ensures active[0].IsNoneEvent() && active[0].index == Added && active[0].revents == {HUP}
  {
    var poller, c := SilencedTwice(fd);
    active := poller.Poll([(fd, {HUP})]);
  }

  method SilencedTwice(fd: int) returns (poller: EPollPoller, c: Channel)
    ensures fresh(poller) && fresh(c) && poller.Valid() && poller.known == {c} && poller.Holds(c)
    ensures c.fd == fd && c.IsNoneEvent() && c.index == Added && fd in poller.kernel
  {
    poller := new EPollPoller();
    c := new Channel(poller, fd);
    c.EnableReading(poller);
    c.DisableReading(poller);
    c.DisableAll(poller);
  }

  lemma Agreement(poller: EPollPoller, c: Channel)
    requires poller.Valid() && c in poller.known && (c.fd in poller.channels ==> poller.Holds(c))
    ensures c.events == poller.Interest(c.fd) && (c.index == Added <==> c.fd in poller.kernel)
  {
    poller.KernelAgrees(c);
  }
}
