/** The community MQTT feed: its subscription state as changed by the client's callbacks, and the filter
    in front of the registered callbacks. Return codes of 128 and more in a SUBACK packet refuse a
    subscription (section 3.9.3 of MQTT Version 3.1.1). */
module MqttFeed {
  import opened Options
  import opened MessageCache

  type Topic = string
  type Callback = nat

  const MAX_SUBSCRIPTION_ATTEMPTS := 5
  const UNSPECIFIED_ERROR := 128

  datatype ConnectTask = NoTask | Pending | Finished

  /** The flags and tasks of the connection itself. */
  datatype Link = Link(
    hasClient: bool,
    validAuth: bool,
    disconnected: bool,
    connectTask: ConnectTask,
    cancelledConnects: nat,       // cancelled connections whose coroutine has not resumed yet
    connectedAtLeastOnce: bool,
    reconnecting: bool,
    shouldStop: bool)

  datatype FeedState = FeedState(
    callbacks: map<Topic, seq<Callback>>,
    topics: set<Topic>,
    defaults: set<Topic>,
    link: Link,
    subscribed: bool,
    attempts: nat,
    requested: seq<set<Topic>>,   // the subscription requests made
    pending: seq<set<Topic>>,     // those, and the ones sent again, that the client knows and were not answered
    resent: seq<Topic>)           // the subscriptions sent again after a refusal

  datatype ConnectOutcome = Established | TimedOut

  /** What the feed's coroutines and callbacks do between two points where others may run. A SUBACK answers
      one of the pending requests, given by its position and in the order its topics were sent. */
  datatype Event =
    | Start
    | BeginConnect(defaults: set<Topic>, hasDevice: bool)
    | EndConnect(outcome: ConnectOutcome)
    | CancelSeen
    | EndReconnect
    | OnConnect
    | OnDisconnect
    | OnSubscribe(index: nat, batch: seq<Topic>, codes: seq<nat>)
    | Register(topic: Topic, callback: Callback)
    | BeginStop
    | EndStop

  const INITIAL := FeedState(map[], {}, {}, Link(false, true, true, NoTask, 0, false, false, false), false, 0, [], [], [])

  function Subscribe(s: FeedState, topics: set<Topic>): FeedState {
    if topics == {} then s else s.(requested := s.requested + [topics], pending := s.pending + [topics])
  }

  /** `client.resubscribe`: a request for one topic. */
  function Resubscribe(s: FeedState, topic: Topic): FeedState {
    s.(resent := s.resent + [topic], pending := s.pending + [{topic}])
  }

  /** The rest of a SUBACK, from subscription number i on: a refused subscription is sent again until the
      attempts reach five times the batch. */
  function Acknowledge(s: FeedState, batch: seq<Topic>, codes: seq<nat>, i: nat): FeedState
    decreases |batch| - i
  {
    if i >= |batch| || i >= |codes| then s
    else if codes[i] >= UNSPECIFIED_ERROR then
      if s.attempts < MAX_SUBSCRIPTION_ATTEMPTS * |batch| then
        Acknowledge(Resubscribe(s.(attempts := s.attempts + 1), batch[i]), batch, codes, i + 1)
      else s.(subscribed := false)
    else Acknowledge(s.(attempts := 0, subscribed := true), batch, codes, i + 1)
  }

  predicate IsOrderOf(batch: seq<Topic>, topics: set<Topic>) {
    |batch| == |topics| && topics == set t | t in batch
  }

  function Without(requests: seq<set<Topic>>, index: nat): seq<set<Topic>> {
    if index < |requests| then requests[..index] + requests[index + 1..] else requests
  }

  /** A SUBACK that answers no pending request finds no subscription. */
  function Answered(s: FeedState, index: nat, batch: seq<Topic>, codes: seq<nat>): FeedState {
    if index < |s.pending| && IsOrderOf(batch, s.pending[index])
    then Acknowledge(s.(pending := Without(s.pending, index)), batch, codes, 0)
    else s
  }

  function Registered(s: FeedState, topic: Topic, callback: Callback): FeedState {
    var added := s.(callbacks := s.callbacks[topic :=
      if topic in s.callbacks then s.callbacks[topic] + [callback] else [callback]]);
    if topic in s.topics then added
    else
      var known := added.(topics := s.topics + {topic});
      if s.link.validAuth && s.link.hasClient then Subscribe(known, {topic}) else known
  }

  function Disconnected(link: Link): Link {
    var t := link.(disconnected := true);
    if link.shouldStop then t
    else if link.connectedAtLeastOnce then t.(reconnecting := true)
    else if link.connectTask.Pending? then t.(connectTask := Finished, cancelledConnects := link.cancelledConnects + 1)
    else t
  }

  /** The connections still to see that they were cancelled once a stop has ended. */
  function CancelledByStop(link: Link): nat {
    link.cancelledConnects + if link.connectTask.Pending? then 1 else 0
  }

  /** The end of a stop, after the client's disconnection: tasks are cancelled, then the flags are reset. A
      cancelled reconnection ends on its own. */
  function Stopped(link: Link): Link {
    link.(cancelledConnects := CancelledByStop(link),
      connectTask := NoTask, connectedAtLeastOnce := false, validAuth := true, disconnected := true)
  }

  function HandleLink(link: Link, e: Event): Link {
    match e
    case Start => link.(shouldStop := false)
    case BeginConnect(_, hasDevice) =>
      if hasDevice then link.(hasClient := true, connectTask := Pending) else link.(validAuth := false)
    case EndConnect(outcome) =>
      if !link.connectTask.Pending? then link
      else link.(connectTask := Finished, connectedAtLeastOnce := link.connectedAtLeastOnce || outcome.Established?)
    case CancelSeen =>
      if link.cancelledConnects == 0 then link
      else link.(cancelledConnects := link.cancelledConnects - 1, validAuth := false)
    case EndReconnect => link.(reconnecting := false)
    case OnConnect => link.(disconnected := false)
    case OnDisconnect => Disconnected(link)
    case BeginStop => link.(shouldStop := true)
    case EndStop => Stopped(link)
    case _ => link
  }

  /** A connection with a device makes a new client, which knows no request. */
  function Handle(s: FeedState, e: Event): FeedState {
    var t := s.(link := HandleLink(s.link, e));
    match e
    case BeginConnect(defaults, hasDevice) => t.(defaults := defaults, pending := if hasDevice then [] else s.pending)
    case OnConnect => Subscribe(t.(subscribed := false), s.topics + s.defaults)
    case OnDisconnect => t.(subscribed := false)
    case OnSubscribe(index, batch, codes) => Answered(s, index, batch, codes)
    case Register(topic, callback) => Registered(s, topic, callback)
    case EndStop => t.(attempts := 0)
    case _ => t
  }

  function HandleAll(s: FeedState, events: seq<Event>): FeedState
    decreases |events|
  {
    var n := |events|;
    if n == 0 then s else Handle(HandleAll(s, events[..n - 1]), events[n - 1])
  }

  // ---------- the feed object ----------

  /** What reading a message leads to. */
  function RunUntilFailure(callbacks: seq<Callback>, failing: set<Callback>): seq<Callback> {
    if callbacks == [] then []
    else if callbacks[0] in failing then [callbacks[0]]
    else [callbacks[0]] + RunUntilFailure(callbacks[1..], failing)
  }

  /** The callbacks run are the first ones, up to one that fails or else all of them. */
  lemma {:induction false} RunsUpToFailure(callbacks: seq<Callback>, failing: set<Callback>)
    ensures var ran := RunUntilFailure(callbacks, failing);
      && ran <= callbacks
      && (forall i | 0 <= i < |ran| - 1 :: ran[i] !in failing)
      && (ran == callbacks || (ran != [] && ran[|ran| - 1] in failing))
  {
    if callbacks != [] && callbacks[0] !in failing {
      RunsUpToFailure(callbacks[1..], failing);
      assert callbacks == [callbacks[0]] + callbacks[1..];
    }
  }

  class CommunityMqttFeed {
    var feedCallbacks: map<Topic, seq<Callback>>
    var subscriptionTopics: set<Topic>
    var defaultTopics: map<Topic, seq<Callback>>
    var link: Link
    var subscriptionAttempts: nat
    var subscribed: bool
    var requested: seq<set<Topic>>
    var pending: seq<set<Topic>>
    var resent: seq<Topic>
    var processedMessages: seq<string>
    ghost var accepted: seq<string>

    ghost predicate Valid()
      reads this
    {
      && processedMessages == Window(accepted)
      && subscriptionTopics == feedCallbacks.Keys
    }

    ghost function State(): FeedState
      reads this
    {
      FeedState(feedCallbacks, subscriptionTopics, defaultTopics.Keys, link, subscribed, subscriptionAttempts,
        requested, pending, resent)
    }

    constructor ()
      ensures Valid() && accepted == [] && State() == INITIAL
    {
      feedCallbacks, subscriptionTopics, defaultTopics := map[], {}, map[];
      link := INITIAL.link;
      subscriptionAttempts, subscribed := 0, false;
      requested, pending, resent, processedMessages, accepted := [], [], [], [], [];
    }

    /** `_should_process`: a message is processed when it has no id or an id outside the window of the
        accepted ones, and is then remembered. */
    method ShouldProcess(id: Option<string>) returns (process: bool)
      requires Valid()
      modifies this`processedMessages, this`accepted
      ensures Valid()
      ensures process <==> id.None? || id.value !in Window(old(accepted))
      ensures accepted == if id.Some? && process then old(accepted) + [id.value] else old(accepted)
      ensures id.Some? ==> accepted == Accepted(old(accepted), id.value)
    {
      if id.None? {
        return true;
      }
      if id.value in processedMessages {
        return false;
      }
      RecordedIsWindow(accepted, id.value);
      processedMessages := processedMessages + [id.value];
      if |processedMessages| > MAX_MESSAGE_ID_CACHE_SIZE {
        processedMessages := processedMessages[MAX_MESSAGE_ID_CACHE_SIZE / 2..];
      }
      accepted := accepted + [id.value];
      return true;
    }

    static method RunCallbacks(callbacks: seq<Callback>, failing: set<Callback>) returns (ran: seq<Callback>)
      ensures ran == RunUntilFailure(callbacks, failing)
    {
      ran := [];
      var i := 0;
      while i < |callbacks|
        invariant i <= |callbacks|
        invariant RunUntilFailure(callbacks, failing) == ran + RunUntilFailure(callbacks[i..], failing)
      {
        ran := ran + [callbacks[i]];
        if callbacks[i] in failing {
          return;
        }
        i := i + 1;
      }
    }

    /** `_process_message`: a new message runs the default callbacks of its topic, then the registered ones.
        Its id stays remembered even when one of them fails, which keeps the following ones from running. */
    method ProcessMessage(topic: Topic, supported: bool, id: Option<string>, failing: set<Callback>)
      returns (ran: seq<Callback>)
      requires Valid()
      modifies this`processedMessages, this`accepted
      ensures Valid()
      ensures var isNew := supported && (id.None? || id.value !in Window(old(accepted)));
        var callbacks := (if topic in defaultTopics then defaultTopics[topic] else []) +
          (if topic in feedCallbacks then feedCallbacks[topic] else []);
        && ran == (if isNew then RunUntilFailure(callbacks, failing) else [])
        && (isNew && (forall c :: c in callbacks ==> c !in failing) ==> ran == callbacks)
        && accepted == if isNew && id.Some? then old(accepted) + [id.value] else old(accepted)
    {
      RunsUpToFailure(CallbacksOf(topic), failing);
      ran := [];
      if !supported {
        return;
      }
      var process := ShouldProcess(id);
      if process {
        ran := RunCallbacks(CallbacksOf(topic), failing);
      }
    }

    function CallbacksOf(topic: Topic): seq<Callback>
      reads this
    {
      (if topic in defaultTopics then defaultTopics[topic] else [])
      + (if topic in feedCallbacks then feedCallbacks[topic] else [])
    }

    /** `_subscribe`, when there is a client */
    method SubscribeTo(topics: set<Topic>)
      modifies this`requested, this`pending
      ensures State() == Subscribe(old(State()), topics)
    {
      if topics != {} {
        requested := requested + [topics];
        pending := pending + [topics];
      }
    }

    /** `register_feed_callback`; it fails when it is to subscribe while there is no client. */
    method RegisterFeedCallback(topic: Topic, callback: Callback) returns (failed: bool)
      requires Valid()
      modifies this`feedCallbacks, this`subscriptionTopics, this`requested, this`pending
      ensures Valid() && State() == Handle(old(State()), Register(topic, callback))
      ensures failed <==> topic !in old(subscriptionTopics) && link.validAuth && !link.hasClient
    {
      failed := false;
      if topic in feedCallbacks {
        feedCallbacks := feedCallbacks[topic := feedCallbacks[topic] + [callback]];
      } else {
        feedCallbacks := feedCallbacks[topic := [callback]];
      }
      if topic !in subscriptionTopics {
        subscriptionTopics := subscriptionTopics + {topic};
        if link.validAuth {
          if link.hasClient {
            SubscribeTo({topic});
          } else {
            failed := true;
          }
        }
      }
    }

    /** `_on_connect` */
    method HandleConnect()
      modifies this`link, this`subscribed, this`requested, this`pending
      ensures State() == Handle(old(State()), OnConnect)
    {
      link := link.(disconnected := false);
      subscribed := false;
      SubscribeTo(subscriptionTopics + defaultTopics.Keys);
    }

    /** `_on_disconnect` and `_try_reconnect_if_necessary` */
    method HandleDisconnect()
      modifies this`link, this`subscribed
      ensures State() == Handle(old(State()), OnDisconnect)
    {
      link := link.(disconnected := true);
      subscribed := false;
      if !link.shouldStop {
        if link.connectedAtLeastOnce {
          if !link.reconnecting {
            link := link.(reconnecting := true);
          }
        } else if link.connectTask.Pending? {
          link := link.(connectTask := Finished, cancelledConnects := link.cancelledConnects + 1);
        }
      }
    }

    /** `stop` up to the client's disconnection, which it waits for */
    method BeginStopFeed()
      modifies this`link
      ensures State() == Handle(old(State()), BeginStop)
    {
      link := link.(shouldStop := true);
    }

    /** `_reset` */
    method Reset()
      modifies this`link, this`subscriptionAttempts
      ensures subscriptionAttempts == 0
      ensures link == old(link).(connectedAtLeastOnce := false, connectTask := NoTask, validAuth := true, disconnected := true)
    {
      subscriptionAttempts := 0;
      link := link.(connectedAtLeastOnce := false, connectTask := NoTask, validAuth := true, disconnected := true);
    }

    /** The rest of `stop` */
    method EndStopFeed()
      modifies this`link, this`subscriptionAttempts
      ensures State() == Handle(old(State()), EndStop)
    {
      if link.connectTask.Pending? {
        link := link.(cancelledConnects := link.cancelledConnects + 1);
      }
      Reset();
    }

    /** The loop of `_on_subscribe` */
    method ReadCodes(batch: seq<Topic>, codes: seq<nat>)
      modifies this`subscriptionAttempts, this`subscribed, this`resent, this`pending
      ensures State() == Acknowledge(old(State()), batch, codes, 0)
    {
      var i := 0;
      while i < |batch| && i < |codes|
        invariant i <= |batch|
        invariant Acknowledge(State(), batch, codes, i) == Acknowledge(old(State()), batch, codes, 0)
      {
        if codes[i] >= UNSPECIFIED_ERROR {
          if subscriptionAttempts < MAX_SUBSCRIPTION_ATTEMPTS * |batch| {
            subscriptionAttempts := subscriptionAttempts + 1;
            resent := resent + [batch[i]];
            pending := pending + [{batch[i]}];
          } else {
            subscribed := false;
            return;
          }
        } else {
          subscriptionAttempts := 0;
          subscribed := true;
        }
        i := i + 1;
      }
    }

    /** `_on_subscribe`; without a pending request for it there is no subscription to read codes for. */
    method HandleSuback(index: nat, batch: seq<Topic>, codes: seq<nat>)
      modifies this`subscriptionAttempts, this`subscribed, this`resent, this`pending
      ensures State() == Handle(old(State()), OnSubscribe(index, batch, codes))
    {
      if index < |pending| && IsOrderOf(batch, pending[index]) {
        pending := Without(pending, index);
        ReadCodes(batch, codes);
      }
    }
  }
}
