/** A trigger event fed by channel consumers: one future at a time, set by the first trigger of a wait. */
module ChannelTrigger {
  import opened Options

  datatype Future = NoFuture | Pending | Done(description: string) | Cancelled

  /** Where the coroutine waiting for the next event is. */
  datatype Phase = Outside | Registering | Awaiting | Ended

  /** The consumers listed for `stop`, and those that were added to a list `stop` had already replaced. */
  datatype Channel = Channel(phase: Phase, future: Future, shouldStop: bool, registered: bool,
    consumers: nat, orphans: nat)

  /** What happens between two points where others may run. */
  datatype Op = Next | Registered(consumers: nat) | Trigger(description: string) | ClearFuture | Stop | Wake

  const NEW := Channel(Outside, NoFuture, false, false, 0, 0)

  function CancelPending(future: Future): Future {
    if future.Pending? then Cancelled else future
  }

  function AfterStop(c: Channel): Channel {
    Channel(c.phase, CancelPending(c.future), true, false, 0, c.orphans)
  }

  function Handle(c: Channel, op: Op): Channel {
    match op
    case Next =>
      if !c.phase.Outside? then c
      else if c.shouldStop then c.(phase := Ended)
      else c.(phase := if c.registered then Awaiting else Registering, future := Pending, registered := true)
    case Registered(n) =>
      if !c.phase.Registering? then c
      else if c.shouldStop then c.(phase := Awaiting, orphans := c.orphans + n)
      else c.(phase := Awaiting, consumers := c.consumers + n)
    case Trigger(description) =>
      if c.future.Pending? then c.(future := Done(description)) else c
    case ClearFuture => c.(future := CancelPending(c.future))
    case Stop => AfterStop(c)
    case Wake =>
      if !c.phase.Awaiting? then c
      else match c.future
        case Done(_) => c.(phase := Outside)
        case Cancelled => (if c.shouldStop then c else AfterStop(c)).(phase := Ended)
        case _ => c
  }

  /** The event a wake-up hands to the loop. */
  function Delivered(c: Channel, op: Op): seq<string> {
    if op.Wake? && c.phase.Awaiting? && c.future.Done? then [c.future.description] else []
  }

  function HandleAll(c: Channel, ops: seq<Op>): Channel
    decreases |ops|
  {
    if ops == [] then c else HandleAll(Handle(c, ops[0]), ops[1..])
  }

  function DeliveredAll(c: Channel, ops: seq<Op>): seq<string>
    decreases |ops|
  {
    if ops == [] then [] else Delivered(c, ops[0]) + DeliveredAll(Handle(c, ops[0]), ops[1..])
  }

  class ChannelBasedTriggerEvent {
    var state: Channel

    constructor ()
      ensures state == NEW
    {
      state := NEW;
    }

    /** `_get_next_event` up to the registration or the await; false when it raises */
    method BeginGetNextEvent() returns (waits: bool)
      requires state.phase.Outside?
      modifies this
      ensures state == Handle(old(state), Next) && waits == !state.phase.Ended?
    {
      if state.shouldStop {
        state := state.(phase := Ended);
        return false;
      }
      state := state.(future := Pending);
      if !state.registered {
        state := state.(registered := true, phase := Registering);
      } else {
        state := state.(phase := Awaiting);
      }
      waits := true;
    }

    /** The rest of `_get_next_event` once the future is done: None when it raises */
    method EndGetNextEvent() returns (description: Option<string>)
      requires state.phase.Awaiting? && (state.future.Done? || state.future.Cancelled?)
      modifies this
      ensures state == Handle(old(state), Wake)
      ensures (if description.Some? then [description.value] else []) == Delivered(old(state), Wake)
    {
      if state.future.Done? {
        description := Some(state.future.description);
        state := state.(phase := Outside);
      } else {
        if !state.shouldStop {
          StopAll();
        }
        state := state.(phase := Ended);
        description := None;
      }
    }

    /** `trigger`; it raises when there is no future yet. */
    method TriggerEvent(description: string) returns (raised: bool)
      modifies this
      ensures state == Handle(old(state), Trigger(description)) && raised == state.future.NoFuture?
    {
      raised := state.future.NoFuture?;
      if state.future.Pending? {
        state := state.(future := Done(description));
      }
    }

    /** `stop` */
    method StopAll()
      modifies this
      ensures state == Handle(old(state), Stop)
    {
      state := state.(shouldStop := true);
      if state.future.Pending? {
        state := state.(future := Cancelled);
      }
      state := state.(consumers := 0);
      state := state.(registered := false);
    }
  }

  /** Nothing is lost or replaced once a future has its result: until the wake-up, later triggers, a
      cleared future and even a stop leave it. */
  lemma {:induction false} FirstTriggerWins(c: Channel, description: string, ops: seq<Op>)
    requires c.future.Pending? && !c.phase.Outside? && Wake !in ops
    ensures HandleAll(Handle(c, Trigger(description)), ops).future == Done(description)
    ensures DeliveredAll(Handle(c, Trigger(description)), ops) == []
  {
    ResultStays(Handle(c, Trigger(description)), ops);
  }

  lemma {:induction false} ResultStays(c: Channel, ops: seq<Op>)
    requires c.future.Done? && !c.phase.Outside? && Wake !in ops
    ensures HandleAll(c, ops).future == c.future && DeliveredAll(c, ops) == []
    decreases |ops|
  {
    if ops != [] {
      assert ops[0] in ops;
      assert forall op :: op in ops[1..] ==> op in ops;
      ResultStays(Handle(c, ops[0]), ops[1..]);
    }
  }

  /** The descriptions triggered, in order, whether or not a wait took them. */
  function Triggered(ops: seq<Op>): seq<string> {
    if ops == [] then []
    else (if ops[0].Trigger? then [ops[0].description] else []) + Triggered(ops[1..])
  }

  predicate IsSubsequence(some: seq<string>, all: seq<string>) {
    some == [] || (all != [] && (IsSubsequence(some, all[1..]) || (some[0] == all[0] && IsSubsequence(some[1..], all[1..]))))
  }

  function Kept(c: Channel): seq<string> {
    if c.future.Done? && !c.phase.Outside? && !c.phase.Ended? then [c.future.description] else []
  }

  lemma {:induction false} SubsequenceOfMore(some: seq<string>, x: string, all: seq<string>)
    requires IsSubsequence(some, all)
    ensures IsSubsequence(some, [x] + all) && IsSubsequence([x] + some, [x] + all)
  {
    assert ([x] + all)[1..] == all && ([x] + some)[1..] == some;
  }

  lemma TriggerIsKept(c: Channel, op: Op, delivered: seq<string>, triggered: seq<string>)
    requires op.Trigger? && IsSubsequence(delivered, Kept(Handle(c, op)) + triggered)
    ensures IsSubsequence(delivered, Kept(c) + ([op.description] + triggered))
  {
    if c.future.Pending? {
      if Kept(Handle(c, op)) == [] {
        assert [] + triggered == triggered;
        SubsequenceOfMore(delivered, op.description, triggered);
      }
      assert [] + ([op.description] + triggered) == [op.description] + triggered;
    } else if Kept(c) == [] {
      assert [] + triggered == triggered && [] + ([op.description] + triggered) == [op.description] + triggered;
      SubsequenceOfMore(delivered, op.description, triggered);
    } else {
      SubsequenceInside(delivered, c.future.description, op.description, triggered);
    }
  }

  lemma WakeIsKept(c: Channel, delivered: seq<string>, triggered: seq<string>)
    requires IsSubsequence(delivered, Kept(Handle(c, Wake)) + triggered)
    ensures IsSubsequence(Delivered(c, Wake) + delivered, Kept(c) + triggered)
  {
    if Delivered(c, Wake) != [] {
      assert [] + triggered == triggered;
      SubsequenceOfMore(delivered, c.future.description, triggered);
    } else {
      assert [] + delivered == delivered;
    }
  }

  lemma {:induction false} SubsequenceInside(some: seq<string>, x: string, y: string, all: seq<string>)
    requires IsSubsequence(some, [x] + all)
    ensures IsSubsequence(some, [x] + ([y] + all))
  {
    assert ([x] + all)[1..] == all && ([x] + ([y] + all))[1..] == [y] + all;
    if IsSubsequence(some, all) {
      SubsequenceOfMore(some, y, all);
    } else if some != [] {
      SubsequenceOfMore(some[1..], y, all);
    }
  }

  /** Every wait has its own future: what is delivered is a part, in order, of what was triggered, so nothing
      is delivered twice and nothing left of an earlier wait is. */
  lemma {:induction false} DeliveredWasTriggered(c: Channel, ops: seq<Op>)
    ensures IsSubsequence(DeliveredAll(c, ops), Kept(c) + Triggered(ops))
    decreases |ops|
  {
    if ops != [] {
      var op, after := ops[0], Handle(c, ops[0]);
      var delivered, triggered := DeliveredAll(after, ops[1..]), Triggered(ops[1..]);
      DeliveredWasTriggered(after, ops[1..]);
      assert [] + delivered == delivered && [] + triggered == triggered;
      if op.Trigger? {
        TriggerIsKept(c, op, delivered, triggered);
      } else if op.Wake? {
        WakeIsKept(c, delivered, triggered);
      }
    }
  }

  /** How often consumers have been registered for over some operations. */
  function Registrations(c: Channel, ops: seq<Op>): nat
    decreases |ops|
  {
    if ops == [] then 0
    else Registrations(Handle(c, ops[0]), ops[1..]) + if c.phase.Registering? && ops[0].Registered? then 1 else 0
  }

  lemma OneMoreOp(c: Channel, op: Op, ops: seq<Op>)
    ensures HandleAll(c, [op] + ops) == HandleAll(Handle(c, op), ops)
    ensures DeliveredAll(c, [op] + ops) == Delivered(c, op) + DeliveredAll(Handle(c, op), ops)
    ensures Registrations(c, [op] + ops) ==
      Registrations(Handle(c, op), ops) + if c.phase.Registering? && op.Registered? then 1 else 0
  {
    assert ([op] + ops)[1..] == ops;
  }

  lemma {:induction false} RegistersAtMost(c: Channel, ops: seq<Op>)
    requires c.phase.Registering? ==> c.registered || c.shouldStop
    ensures Registrations(c, ops) <= if c.phase.Registering? || (!c.registered && !c.shouldStop) then 1 else 0
    decreases |ops|
  {
    if ops != [] {
      RegistersAtMost(Handle(c, ops[0]), ops[1..]);
    }
  }

  /** Whatever happens, consumers are registered at most once in the life of a trigger: the first wait does
      it, later ones find them registered, and after a stop no wait begins any more. */
  lemma RegistersOnce(ops: seq<Op>)
    ensures Registrations(NEW, ops) <= 1
  {
    RegistersAtMost(NEW, ops);
  }

  /** Until it is stopped every wait can be served: the first one registers its consumers, then a trigger is
      delivered by the wake-up, and the next wait can begin. */
  lemma EachWaitDelivers(c: Channel, n: nat, description: string)
    requires c.phase.Outside? && !c.shouldStop
    ensures var ops := [Next] + ((if c.registered then [] else [Registered(n)]) + ([Trigger(description)] + [Wake]));
      && DeliveredAll(c, ops) == [description]
      && Registrations(c, ops) == (if c.registered then 0 else 1)
      && HandleAll(c, ops) == c.(future := Done(description), registered := true,
        consumers := if c.registered then c.consumers else c.consumers + n)
  {
    var last, waiting := [Trigger(description)] + [Wake], Handle(c, Next);
    if c.registered {
      assert [] + last == last;
      OneMoreOp(c, Next, last);
      TriggeredWaitDelivers(waiting, description);
    } else {
      OneMoreOp(c, Next, [Registered(n)] + last);
      OneMoreOp(waiting, Registered(n), last);
      TriggeredWaitDelivers(Handle(waiting, Registered(n)), description);
    }
  }

  lemma TriggeredWaitDelivers(c: Channel, description: string)
    requires c.phase.Awaiting? && c.future.Pending?
    ensures var ops := [Trigger(description)] + [Wake];
      DeliveredAll(c, ops) == [description] && Registrations(c, ops) == 0 &&
      HandleAll(c, ops) == c.(phase := Outside, future := Done(description))
  {
    OneMoreOp(c, Trigger(description), [Wake]);
    OneMoreOp(Handle(c, Trigger(description)), Wake, []);
    assert [Wake] + [] == [Wake];
  }

  predicate StopIsKept(c: Channel) {
    (c.shouldStop ==> c.consumers == 0 && !c.registered && !c.future.Pending?) && (c.phase.Ended? ==> c.shouldStop)
  }

  lemma {:induction false} StopStaysKept(c: Channel, ops: seq<Op>)
    requires StopIsKept(c)
    ensures StopIsKept(HandleAll(c, ops))
    decreases |ops|
  {
    if ops != [] {
      StopStaysKept(Handle(c, ops[0]), ops[1..]);
    }
  }

  /** However the loop over the events has ended, the trigger is stopped then, with its listed consumers. */
  lemma EndedIsStopped(ops: seq<Op>)
    requires HandleAll(NEW, ops).phase.Ended?
    ensures HandleAll(NEW, ops).shouldStop && HandleAll(NEW, ops).consumers == 0 && !HandleAll(NEW, ops).registered
  {
    StopStaysKept(NEW, ops);
  }

  lemma {:induction false} CancelledEnds(c: Channel, ops: seq<Op>)
    requires c.phase.Awaiting? && c.future.Cancelled? && Wake in ops
    ensures HandleAll(c, ops).phase.Ended? && DeliveredAll(c, ops) == []
    decreases |ops|
  {
    var after := Handle(c, ops[0]);
    assert ops == [ops[0]] + ops[1..];
    if ops[0].Wake? {
      EndedStaysEnded(after, ops[1..]);
    } else {
      CancelledEnds(after, ops[1..]);
    }
  }

  lemma {:induction false} EndedStaysEnded(c: Channel, ops: seq<Op>)
    requires c.phase.Ended?
    ensures HandleAll(c, ops).phase.Ended? && DeliveredAll(c, ops) == []
    decreases |ops|
  {
    if ops != [] {
      EndedStaysEnded(Handle(c, ops[0]), ops[1..]);
    }
  }

  /** Clearing the future of a wait ends the loop at its wake-up, whatever is triggered meanwhile; of a wait
      that was triggered before, it changes nothing. */
  lemma ClearingEndsWait(c: Channel, ops: seq<Op>)
    requires c.phase.Awaiting? && Wake in ops
    ensures c.future.Pending? ==> HandleAll(c, [ClearFuture] + ops).phase.Ended? && DeliveredAll(c, [ClearFuture] + ops) == []
    ensures c.future.Done? ==> HandleAll(c, [ClearFuture] + ops) == HandleAll(c, ops)
  {
    OneMoreOp(c, ClearFuture, ops);
    if c.future.Pending? {
      CancelledEnds(Handle(c, ClearFuture), ops);
    }
  }

  /** No wait begins after a stop: it ends the loop instead. */
  lemma NoWaitAfterStop(c: Channel, ops: seq<Op>)
    requires c.phase.Outside? && c.shouldStop
    ensures HandleAll(c, [Next] + ops).phase.Ended? && DeliveredAll(c, [Next] + ops) == []
  {
    OneMoreOp(c, Next, ops);
    EndedStaysEnded(Handle(c, Next), ops);
  }

  lemma {:induction false} NothingAfterLastResult(c: Channel, ops: seq<Op>)
    requires c.shouldStop && (c.phase.Outside? || c.phase.Ended? || !(c.future.Done? || c.future.Pending?))
    ensures DeliveredAll(c, ops) == []
    decreases |ops|
  {
    if ops != [] {
      NothingAfterLastResult(Handle(c, ops[0]), ops[1..]);
    }
  }

  /** Whether the wait, once its future has its result, is going to be woken up. */
  predicate WakesUp(phase: Phase, ops: seq<Op>) {
    match phase
    case Awaiting => Wake in ops
    case Registering => exists i | 0 <= i < |ops| :: ops[i].Registered? && Wake in ops[i + 1..]
    case _ => false
  }

  lemma WakesUpFirst(phase: Phase, ops: seq<Op>)
    requires ops != []
    ensures phase.Awaiting? ==> (WakesUp(phase, ops) <==> ops[0].Wake? || WakesUp(phase, ops[1..]))
    ensures phase.Registering? ==>
      (WakesUp(phase, ops) <==> WakesUp(if ops[0].Registered? then Awaiting else Registering, ops[1..]))
  {
    var rest := ops[1..];
    assert ops == [ops[0]] + rest;
    if phase.Registering? && WakesUp(phase, ops) {
      var i :| 0 <= i < |ops| && ops[i].Registered? && Wake in ops[i + 1..];
      if i > 0 {
        assert rest[i - 1] == ops[i] && rest[i..] == ops[i + 1..];
        assert Wake in rest;
      }
    }
    if phase.Registering? && WakesUp(phase, rest) {
      var i :| 0 <= i < |rest| && rest[i].Registered? && Wake in rest[i + 1..];
      assert ops[i + 1] == rest[i] && ops[i + 2..] == rest[i + 1..];
    }
  }

  /** Once stopped, exactly the event that had already been triggered is still delivered, once the wait is
      woken up, and nothing else ever is. */
  lemma {:induction false} DeliveredAfterStop(c: Channel, ops: seq<Op>)
    requires c.shouldStop && !c.future.Pending?
    ensures DeliveredAll(c, ops) == if c.future.Done? && WakesUp(c.phase, ops) then [c.future.description] else []
    decreases |ops|
  {
    if !c.future.Done? || c.phase.Outside? || c.phase.Ended? {
      NothingAfterLastResult(c, ops);
    } else if ops != [] {
      WakesUpFirst(c.phase, ops);
      var after := Handle(c, ops[0]);
      if Delivered(c, ops[0]) != [] {
        NothingAfterLastResult(after, ops[1..]);
      } else {
        DeliveredAfterStop(after, ops[1..]);
      }
    }
  }

  /** It can indeed be delivered: stopping does not undo a trigger. */
  lemma DeliveredThoughStopped(c: Channel, description: string)
    requires c.phase.Awaiting? && c.future.Pending?
    ensures DeliveredAll(c, [Trigger(description)] + ([Stop] + [Wake])) == [description]
  {
    OneMoreOp(c, Trigger(description), [Stop] + [Wake]);
    OneMoreOp(Handle(c, Trigger(description)), Stop, [Wake]);
  }

  /** Some consumers are registered by a registration that a stop has overtaken. */
  predicate RegisteredLate(c: Channel, ops: seq<Op>)
    decreases |ops|
  {
    ops != [] && (
      (c.shouldStop && c.phase.Registering? && ops[0].Registered? && ops[0].consumers > 0) ||
      RegisteredLate(Handle(c, ops[0]), ops[1..]))
  }

  /** After a stop every consumer is stopped, except if and only if a registration ended late. */
  lemma {:induction false} ConsumersAfterStop(c: Channel, ops: seq<Op>)
    requires c.shouldStop ==> c.consumers == 0
    requires HandleAll(c, ops).shouldStop
    ensures HandleAll(c, ops).consumers == 0
    ensures HandleAll(c, ops).orphans >= c.orphans
    ensures HandleAll(c, ops).orphans > c.orphans <==> RegisteredLate(c, ops)
    decreases |ops|
  {
    if ops != [] {
      ConsumersAfterStop(Handle(c, ops[0]), ops[1..]);
    }
  }

  lemma LateRegistration(n: nat)
    ensures HandleAll(NEW, [Next] + ([Stop] + ([Registered(n)] + [Wake]))) == Channel(Ended, Cancelled, true, false, 0, n)
  {
    OneMoreOp(NEW, Next, [Stop] + ([Registered(n)] + [Wake]));
    OneMoreOp(Handle(NEW, Next), Stop, [Registered(n)] + [Wake]);
    OneMoreOp(Channel(Registering, Cancelled, true, false, 0, 0), Registered(n), [Wake]);
  }
}
