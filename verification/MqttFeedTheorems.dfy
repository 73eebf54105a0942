/** What holds of the feed over every sequence of events: what its connections request, how often refused
    subscriptions are sent again, and what a stop leaves. */
module MqttFeedTheorems {
  import opened MqttFeed

  lemma OneMoreEvent(s: FeedState, events: seq<Event>, e: Event)
    ensures HandleAll(s, events + [e]) == Handle(HandleAll(s, events), e)
  {
    assert (events + [e])[..|events|] == events;
  }

  // ---------- every connection subscribes to everything ----------

  predicate TopicsAreRegistered(s: FeedState) {
    s.topics == s.callbacks.Keys
  }

  lemma {:induction false} AcknowledgeKeepsTopics(s: FeedState, batch: seq<Topic>, codes: seq<nat>, i: nat)
    ensures var t := Acknowledge(s, batch, codes, i);
      t.topics == s.topics && t.callbacks == s.callbacks && t.link == s.link && t.requested == s.requested
    decreases |batch| - i
  {
    if i < |batch| && i < |codes| {
      if codes[i] < UNSPECIFIED_ERROR {
        AcknowledgeKeepsTopics(s.(attempts := 0, subscribed := true), batch, codes, i + 1);
      } else if s.attempts < MAX_SUBSCRIPTION_ATTEMPTS * |batch| {
        AcknowledgeKeepsTopics(Resubscribe(s.(attempts := s.attempts + 1), batch[i]), batch, codes, i + 1);
      }
    }
  }

  lemma AnsweredKeepsTopics(s: FeedState, index: nat, batch: seq<Topic>, codes: seq<nat>)
    ensures var t := Answered(s, index, batch, codes);
      t.topics == s.topics && t.callbacks == s.callbacks && t.link == s.link && t.requested == s.requested
  {
    if index < |s.pending| {
      AcknowledgeKeepsTopics(s.(pending := Without(s.pending, index)), batch, codes, 0);
    }
  }

  lemma HandleKeepsTopics(s: FeedState, e: Event)
    requires TopicsAreRegistered(s)
    ensures TopicsAreRegistered(Handle(s, e))
  {
    if e.OnSubscribe? {
      AnsweredKeepsTopics(s, e.index, e.batch, e.codes);
    }
  }

  lemma {:induction false} TopicsStayRegistered(s: FeedState, events: seq<Event>)
    requires TopicsAreRegistered(s)
    ensures TopicsAreRegistered(HandleAll(s, events))
    decreases |events|
  {
    var n := |events|;
    if n > 0 {
      TopicsStayRegistered(s, events[..n - 1]);
      HandleKeepsTopics(HandleAll(s, events[..n - 1]), events[n - 1]);
    }
  }

  /** After any events, a connection requests exactly the topics with a registered callback and the
      default ones, in one request, and none when there are none. */
  lemma EveryConnectionSubscribes(events: seq<Event>)
    ensures var s := HandleAll(INITIAL, events); var all := s.callbacks.Keys + s.defaults;
      Handle(s, OnConnect).requested == (if all == {} then s.requested else s.requested + [all]) &&
      Handle(s, OnConnect).pending == (if all == {} then s.pending else s.pending + [all])
  {
    TopicsStayRegistered(INITIAL, events);
  }

  // ---------- what a message runs ----------

  /** The callbacks registered for a topic over some events, in order. */
  function RegisteredOver(events: seq<Event>, topic: Topic): seq<Callback> {
    if events == [] then []
    else
      var e := events[|events| - 1];
      RegisteredOver(events[..|events| - 1], topic) +
      if e.Register? && e.topic == topic then [e.callback] else []
  }

  function CallbacksFor(s: FeedState, topic: Topic): seq<Callback> {
    if topic in s.callbacks then s.callbacks[topic] else []
  }

  lemma HandleKeepsCallbacks(s: FeedState, e: Event, topic: Topic)
    ensures CallbacksFor(Handle(s, e), topic) ==
      CallbacksFor(s, topic) + if e.Register? && e.topic == topic then [e.callback] else []
  {
    if e.OnSubscribe? {
      AnsweredKeepsTopics(s, e.index, e.batch, e.codes);
    }
  }

  /** Whatever else happens, connections lost and stops included, a topic keeps all callbacks ever
      registered for it, once per registration and in order. */
  lemma {:induction false} CallbacksAreRegistered(events: seq<Event>, topic: Topic)
    ensures CallbacksFor(HandleAll(INITIAL, events), topic) == RegisteredOver(events, topic)
    decreases |events|
  {
    var n := |events| - 1;
    if n >= 0 {
      CallbacksAreRegistered(events[..n], topic);
      HandleKeepsCallbacks(HandleAll(INITIAL, events[..n]), events[n], topic);
    }
  }

  // ---------- refused subscriptions are not sent again forever ----------

  predicate IsRefusedOnly(e: Event) {
    e.OnSubscribe? ==> forall i :: 0 <= i < |e.batch| && i < |e.codes| ==> e.codes[i] >= 128
  }

  predicate HasBatchUpTo(e: Event, most: nat) {
    e.OnSubscribe? ==> |e.batch| <= most
  }

  function Max(a: nat, b: nat): nat {
    if a < b then b else a
  }

  function Min(a: nat, b: nat): nat {
    if a < b then a else b
  }

  /** A wholly refused batch is sent again, in order, as far as the attempts left allow. */
  lemma {:induction false} RefusedBatch(s: FeedState, batch: seq<Topic>, codes: seq<nat>, i: nat)
    requires i <= |batch| <= |codes|
    requires forall j :: i <= j < |batch| ==> codes[j] >= 128
    ensures var t := Acknowledge(s, batch, codes, i);
      var most := 5 * |batch|;
      var again := Min(|batch| - i, if s.attempts < most then most - s.attempts else 0);
      && t.resent == s.resent + batch[i..i + again]
      && t.attempts == s.attempts + again
      && (again < |batch| - i ==> !t.subscribed)
    decreases |batch| - i
  {
    if i < |batch| && s.attempts < MAX_SUBSCRIPTION_ATTEMPTS * |batch| {
      RefusedBatch(Resubscribe(s.(attempts := s.attempts + 1), batch[i]), batch, codes, i + 1);
    }
  }

  function Singles(topics: seq<Topic>): seq<set<Topic>> {
    if topics == [] then [] else Singles(topics[..|topics| - 1]) + [{topics[|topics| - 1]}]
  }

  /** Each topic sent again is a request of its own, to be answered by a SUBACK of its own. */
  lemma {:induction false} SentAgainAlone(s: FeedState, batch: seq<Topic>, codes: seq<nat>, i: nat, known: seq<set<Topic>>)
    requires s.pending == known + Singles(s.resent)
    ensures var t := Acknowledge(s, batch, codes, i); t.pending == known + Singles(t.resent)
    decreases |batch| - i
  {
    if i < |batch| && i < |codes| {
      if codes[i] < UNSPECIFIED_ERROR {
        SentAgainAlone(s.(attempts := 0, subscribed := true), batch, codes, i + 1, known);
      } else if s.attempts < MAX_SUBSCRIPTION_ATTEMPTS * |batch| {
        SentAgainAlone(Resubscribe(s.(attempts := s.attempts + 1), batch[i]), batch, codes, i + 1, known);
      }
    }
  }

  /** The topics of all requests ever made. */
  function AllRequested(s: FeedState): set<Topic> {
    set r, t | r in s.requested && t in r :: t
  }

  predicate OnlyRequested(s: FeedState) {
    (forall r, t | r in s.pending && t in r :: t in AllRequested(s)) && forall t | t in s.resent :: t in AllRequested(s)
  }

  lemma {:induction false} AcknowledgeResends(s: FeedState, batch: seq<Topic>, codes: seq<nat>, i: nat)
    requires OnlyRequested(s) && forall t | t in batch :: t in AllRequested(s)
    ensures OnlyRequested(Acknowledge(s, batch, codes, i))
    decreases |batch| - i
  {
    if i < |batch| && i < |codes| {
      if codes[i] < UNSPECIFIED_ERROR {
        AcknowledgeResends(s.(attempts := 0, subscribed := true), batch, codes, i + 1);
      } else if s.attempts < MAX_SUBSCRIPTION_ATTEMPTS * |batch| {
        assert batch[i] in batch;
        AcknowledgeResends(Resubscribe(s.(attempts := s.attempts + 1), batch[i]), batch, codes, i + 1);
      }
    }
  }

  lemma AnswerResends(s: FeedState, index: nat, batch: seq<Topic>, codes: seq<nat>)
    requires OnlyRequested(s)
    ensures OnlyRequested(Answered(s, index, batch, codes))
  {
    if index < |s.pending| && IsOrderOf(batch, s.pending[index]) {
      assert s.pending[index] in s.pending;
      AcknowledgeResends(s.(pending := Without(s.pending, index)), batch, codes, 0);
    }
  }

  lemma StepResends(s: FeedState, e: Event)
    requires OnlyRequested(s)
    ensures OnlyRequested(Handle(s, e))
  {
    if e.OnSubscribe? {
      AnswerResends(s, e.index, e.batch, e.codes);
    } else {
      assert forall r | r in s.requested :: r in Handle(s, e).requested;
    }
  }

  /** Only what was requested is ever sent again: a SUBACK is read for the topics of the request it answers. */
  lemma {:induction false} OnlyRequestedIsResent(events: seq<Event>)
    ensures forall t | t in HandleAll(INITIAL, events).resent :: t in AllRequested(HandleAll(INITIAL, events))
    ensures OnlyRequested(HandleAll(INITIAL, events))
    decreases |events|
  {
    var n := |events| - 1;
    if n >= 0 {
      OnlyRequestedIsResent(events[..n]);
      StepResends(HandleAll(INITIAL, events[..n]), events[n]);
    }
  }

  lemma {:induction false} RefusalsCount(s: FeedState, batch: seq<Topic>, codes: seq<nat>, i: nat, most: nat)
    requires forall j :: i <= j < |batch| && j < |codes| ==> codes[j] >= UNSPECIFIED_ERROR
    requires |batch| <= most
    ensures var t := Acknowledge(s, batch, codes, i);
      && |s.resent| <= |t.resent| && t.attempts - s.attempts == |t.resent| - |s.resent|
      && t.attempts <= Max(s.attempts, MAX_SUBSCRIPTION_ATTEMPTS * most)
    decreases |batch| - i
  {
    if i < |batch| && i < |codes| && s.attempts < MAX_SUBSCRIPTION_ATTEMPTS * |batch| {
      RefusalsCount(Resubscribe(s.(attempts := s.attempts + 1), batch[i]), batch, codes, i + 1, most);
    }
  }

  lemma RefusalStep(s: FeedState, e: Event, most: nat)
    requires IsRefusedOnly(e) && HasBatchUpTo(e, most) && !e.EndStop?
    ensures var t := Handle(s, e);
      && t.attempts - s.attempts == |t.resent| - |s.resent|
      && t.attempts <= Max(s.attempts, MAX_SUBSCRIPTION_ATTEMPTS * most)
  {
    if e.OnSubscribe? && e.index < |s.pending| {
      RefusalsCount(s.(pending := Without(s.pending, e.index)), e.batch, e.codes, 0, most);
    }
  }

  /** Over any stretch of events without a granted subscription and without a stop, at most five times the
      largest batch is sent again, however many connections there are. */
  lemma {:induction false} RefusalsAreBounded(s: FeedState, events: seq<Event>, most: nat)
    requires forall e :: e in events ==> IsRefusedOnly(e) && HasBatchUpTo(e, most) && !e.EndStop?
    ensures var t := HandleAll(s, events);
      && t.attempts - s.attempts == |t.resent| - |s.resent|
      && t.attempts <= Max(s.attempts, MAX_SUBSCRIPTION_ATTEMPTS * most)
      && |t.resent| - |s.resent| <= 5 * most
    decreases |events|
  {
    var n := |events|;
    if n > 0 {
      assert events[n - 1] in events && (forall x :: x in events[..n - 1] ==> x in events);
      RefusalsAreBounded(s, events[..n - 1], most);
      RefusalStep(HandleAll(s, events[..n - 1]), events[n - 1], most);
    }
  }

  // ---------- with granted ones too, sending again comes to an end ----------

  /** The number of subscriptions in requests. */
  function Total(requests: seq<set<Topic>>): nat {
    if requests == [] then 0 else Total(requests[..|requests| - 1]) + |requests[|requests| - 1]|
  }

  lemma TotalOfOneMore(requests: seq<set<Topic>>, topics: set<Topic>)
    ensures Total(requests + [topics]) == Total(requests) + |topics|
  {
    assert (requests + [topics])[..|requests|] == requests;
  }

  lemma {:induction false} TotalWithout(requests: seq<set<Topic>>, index: nat)
    requires index < |requests|
    ensures Total(requests) == Total(Without(requests, index)) + |requests[index]|
  {
    var n := |requests| - 1;
    if index == n {
      assert Without(requests, index) == requests[..n];
    } else {
      TotalWithout(requests[..n], index);
      assert Without(requests, index) == Without(requests[..n], index) + [requests[n]];
      TotalOfOneMore(Without(requests[..n], index), requests[n]);
    }
  }

  /** n times c. */
  function Cost(c: nat, n: nat): nat {
    if n == 0 then 0 else c + Cost(c, n - 1)
  }

  lemma {:induction false} CostOfSum(c: nat, a: nat, b: nat)
    ensures Cost(c, a + b) == Cost(c, a) + Cost(c, b)
  {
    if b > 0 {
      CostOfSum(c, a, b - 1);
    }
  }

  lemma {:induction false} CostIsProduct(c: nat, n: nat)
    ensures Cost(c, n) == c * n
  {
    if n > 0 {
      CostIsProduct(c, n - 1);
    }
  }

  /** What counts for sending again: the subscriptions sent again, the attempts, the pending subscriptions
      and those ever requested. */
  datatype Account = Account(resent: nat, attempts: nat, pending: nat, requested: nat)

  function AccountOf(s: FeedState): Account {
    Account(|s.resent|, s.attempts, Total(s.pending), Total(s.requested))
  }

  /** What sending again can still cost: every pending subscription may be granted once, which gives back
      up to c attempts. */
  function Potential(a: Account, c: nat): int {
    a.resent - a.attempts + Cost(c, a.pending)
  }

  /** From one account to another, with a number of stops, no more is sent again than paid for. */
  predicate Pays(a: Account, b: Account, c: nat, stops: nat) {
    b.attempts <= c && b.requested >= a.requested &&
    Potential(b, c) <= Potential(a, c) + Cost(c, b.requested - a.requested) + Cost(c, stops)
  }

  lemma PaysTogether(x: Account, y: Account, z: Account, c: nat, first: nat, second: nat)
    requires Pays(x, y, c, first) && Pays(y, z, c, second)
    ensures Pays(x, z, c, first + second)
  {
    CostOfSum(c, first, second);
    CostOfSum(c, y.requested - x.requested, z.requested - y.requested);
  }

  lemma RequestPays(a: Account, c: nat, topics: nat)
    requires a.attempts <= c
    ensures Pays(a, Account(a.resent, a.attempts, a.pending + topics, a.requested + topics), c, 0)
  {
    CostOfSum(c, a.pending, topics);
  }

  lemma FewerPendingPays(a: Account, c: nat, pending: nat)
    requires a.attempts <= c && pending <= a.pending
    ensures Pays(a, a.(pending := pending), c, 0)
  {
    CostOfSum(c, pending, a.pending - pending);
  }

  /** What reading the codes from number i on costs, the batch's other subscriptions being still pending. */
  predicate ReadingPays(s: FeedState, batch: seq<Topic>, codes: seq<nat>, i: nat, c: nat)
    requires i <= |batch|
  {
    var a := AccountOf(s);
    Pays(a.(pending := a.pending + |batch| - i), AccountOf(Acknowledge(s, batch, codes, i)), c, 0)
  }

  lemma ResubscribeAccount(s: FeedState, topic: Topic)
    ensures var a := AccountOf(s);
      AccountOf(Resubscribe(s.(attempts := s.attempts + 1), topic)) ==
        Account(a.resent + 1, a.attempts + 1, a.pending + 1, a.requested)
  {
    TotalOfOneMore(s.pending, {topic});
  }

  lemma ReadRefused(s: FeedState, batch: seq<Topic>, codes: seq<nat>, i: nat, c: nat)
    requires i < |batch| && i < |codes| && codes[i] >= UNSPECIFIED_ERROR
    requires s.attempts < MAX_SUBSCRIPTION_ATTEMPTS * |batch|
    requires ReadingPays(Resubscribe(s.(attempts := s.attempts + 1), batch[i]), batch, codes, i + 1, c)
    ensures ReadingPays(s, batch, codes, i, c)
  {
    ResubscribeAccount(s, batch[i]);
  }

  lemma ReadGranted(s: FeedState, batch: seq<Topic>, codes: seq<nat>, i: nat, c: nat)
    requires i < |batch| && i < |codes| && codes[i] < UNSPECIFIED_ERROR && s.attempts <= c
    requires ReadingPays(s.(attempts := 0, subscribed := true), batch, codes, i + 1, c)
    ensures ReadingPays(s, batch, codes, i, c)
  {
  }

  lemma {:induction false} AcknowledgePays(s: FeedState, batch: seq<Topic>, codes: seq<nat>, i: nat, c: nat)
    requires i <= |batch| && MAX_SUBSCRIPTION_ATTEMPTS * |batch| <= c && s.attempts <= c
    ensures ReadingPays(s, batch, codes, i, c)
    decreases |batch| - i
  {
    if i >= |batch| || i >= |codes| || (codes[i] >= UNSPECIFIED_ERROR && s.attempts >= MAX_SUBSCRIPTION_ATTEMPTS * |batch|) {
      var a := AccountOf(s);
      FewerPendingPays(a.(pending := a.pending + |batch| - i), c, a.pending);
    } else if codes[i] >= UNSPECIFIED_ERROR {
      AcknowledgePays(Resubscribe(s.(attempts := s.attempts + 1), batch[i]), batch, codes, i + 1, c);
      ReadRefused(s, batch, codes, i, c);
    } else {
      AcknowledgePays(s.(attempts := 0, subscribed := true), batch, codes, i + 1, c);
      ReadGranted(s, batch, codes, i, c);
    }
  }

  lemma AnsweredPays(s: FeedState, index: nat, batch: seq<Topic>, codes: seq<nat>, c: nat)
    requires MAX_SUBSCRIPTION_ATTEMPTS * |batch| <= c && s.attempts <= c
    ensures Pays(AccountOf(s), AccountOf(Answered(s, index, batch, codes)), c, 0)
  {
    if index < |s.pending| && IsOrderOf(batch, s.pending[index]) {
      TotalWithout(s.pending, index);
      AcknowledgePays(s.(pending := Without(s.pending, index)), batch, codes, 0, c);
    }
  }

  lemma ConnectAccount(s: FeedState) returns (topics: nat)
    ensures var a := AccountOf(s);
      AccountOf(Handle(s, OnConnect)) == Account(a.resent, a.attempts, a.pending + topics, a.requested + topics)
  {
    var all, u := s.topics + s.defaults, Handle(s, OnConnect);
    topics := |all|;
    if all != {} {
      assert u.requested == s.requested + [all] && u.pending == s.pending + [all];
      TotalOfOneMore(s.requested, all);
      TotalOfOneMore(s.pending, all);
    }
  }

  lemma ConnectPays(s: FeedState, c: nat)
    requires s.attempts <= c
    ensures Pays(AccountOf(s), AccountOf(Handle(s, OnConnect)), c, 0)
  {
    var topics := ConnectAccount(s);
    RequestPays(AccountOf(s), c, topics);
  }

  lemma RegisterAccount(s: FeedState, topic: Topic, callback: Callback) returns (topics: nat)
    ensures var a := AccountOf(s);
      AccountOf(Handle(s, Register(topic, callback))) ==
        Account(a.resent, a.attempts, a.pending + topics, a.requested + topics)
  {
    assert Handle(s, Register(topic, callback)) == Registered(s, topic, callback);
    topics := if topic !in s.topics && s.link.validAuth && s.link.hasClient then 1 else 0;
    TotalOfOneMore(s.requested, {topic});
    TotalOfOneMore(s.pending, {topic});
  }

  lemma RegisterPays(s: FeedState, topic: Topic, callback: Callback, c: nat)
    requires s.attempts <= c
    ensures Pays(AccountOf(s), AccountOf(Handle(s, Register(topic, callback))), c, 0)
  {
    var topics := RegisterAccount(s, topic, callback);
    RequestPays(AccountOf(s), c, topics);
  }

  lemma LinkPays(s: FeedState, e: Event, c: nat)
    requires !e.OnSubscribe? && !e.OnConnect? && !e.Register?
    requires s.attempts <= c
    ensures Pays(AccountOf(s), AccountOf(Handle(s, e)), c, if e.EndStop? then 1 else 0)
  {
    if e.BeginConnect? && e.hasDevice {
      FewerPendingPays(AccountOf(s), c, 0);
    }
  }

  lemma StepPays(s: FeedState, e: Event, c: nat)
    requires e.OnSubscribe? ==> MAX_SUBSCRIPTION_ATTEMPTS * |e.batch| <= c
    requires s.attempts <= c
    ensures Pays(AccountOf(s), AccountOf(Handle(s, e)), c, if e.EndStop? then 1 else 0)
  {
    match e
    case OnSubscribe(index, batch, codes) => AnsweredPays(s, index, batch, codes, c);
    case OnConnect => ConnectPays(s, c);
    case Register(topic, callback) => RegisterPays(s, topic, callback, c);
    case _ => LinkPays(s, e, c);
  }

  function Stops(events: seq<Event>): nat {
    if events == [] then 0
    else Stops(events[..|events| - 1]) + if events[|events| - 1].EndStop? then 1 else 0
  }

  predicate HasBatchesWithin(events: seq<Event>, c: nat) {
    forall e | e in events :: e.OnSubscribe? ==> MAX_SUBSCRIPTION_ATTEMPTS * |e.batch| <= c
  }

  lemma LastEvent(s: FeedState, events: seq<Event>)
    requires events != []
    ensures var n := |events| - 1;
      HandleAll(s, events) == Handle(HandleAll(s, events[..n]), events[n]) &&
      Stops(events) == Stops(events[..n]) + if events[n].EndStop? then 1 else 0
  {
  }

  lemma LastEventPays(s: FeedState, events: seq<Event>, c: nat)
    requires events != [] && HasBatchesWithin(events, c)
    requires HandleAll(s, events[..|events| - 1]).attempts <= c
    ensures var front := events[..|events| - 1];
      Stops(front) <= Stops(events) &&
      Pays(AccountOf(HandleAll(s, front)), AccountOf(HandleAll(s, events)), c, Stops(events) - Stops(front))
  {
    var n := |events| - 1;
    LastEvent(s, events);
    StepPays(HandleAll(s, events[..n]), events[n], c);
  }

  lemma {:induction false} EventsPay(s: FeedState, events: seq<Event>, c: nat)
    requires s.attempts <= c && HasBatchesWithin(events, c)
    ensures Pays(AccountOf(s), AccountOf(HandleAll(s, events)), c, Stops(events))
    decreases |events|
  {
    var n := |events| - 1;
    if n >= 0 {
      var first, before, after := AccountOf(s), AccountOf(HandleAll(s, events[..n])), AccountOf(HandleAll(s, events));
      SplitLast(events);
      EventsPay(s, events[..n], c);
      LastEventPays(s, events, c);
      PaysTogether(first, before, after, c, Stops(events[..n]), Stops(events) - Stops(events[..n]));
    }
  }

  lemma PaidFor(a: Account, b: Account, c: nat, stops: nat)
    requires a.attempts <= c && Pays(a, b, c, stops)
    ensures b.resent - a.resent <= c * (1 + a.pending + (b.requested - a.requested) + stops)
  {
    var requested := b.requested - a.requested;
    CostOfSum(c, 1, a.pending);
    CostOfSum(c, 1 + a.pending, requested);
    CostOfSum(c, 1 + a.pending + requested, stops);
    CostIsProduct(c, 1 + a.pending + requested + stops);
  }

  /** Over any events at all, granted topics, connections and stops included: with c at least the starting
      attempts and five times every batch, at most c subscriptions are sent again, and c more for each
      subscription that was pending or has been requested and for each stop. */
  lemma {:induction false} ResendsAreBounded(s: FeedState, events: seq<Event>, c: nat)
    requires s.attempts <= c && HasBatchesWithin(events, c)
    ensures var t := HandleAll(s, events);
      var requested := Total(t.requested) - Total(s.requested);
      requested >= 0 && |t.resent| - |s.resent| <= c * (1 + Total(s.pending) + requested + Stops(events))
  {
    EventsPay(s, events, c);
    PaidFor(AccountOf(s), AccountOf(HandleAll(s, events)), c, Stops(events));
  }

  /** The granted subscriptions among the codes from number i on. */
  function Granted(codes: seq<nat>, i: nat): nat
    decreases |codes| - i
  {
    if i >= |codes| then 0 else Granted(codes, i + 1) + if codes[i] < UNSPECIFIED_ERROR then 1 else 0
  }

  function GrantedBy(e: Event): nat {
    if e.OnSubscribe? then Granted(e.codes, 0) else 0
  }

  function GrantedOver(events: seq<Event>): nat {
    if events == [] then 0 else GrantedOver(events[..|events| - 1]) + GrantedBy(events[|events| - 1])
  }

  lemma {:induction false} ReadingGives(s: FeedState, batch: seq<Topic>, codes: seq<nat>, i: nat, c: nat)
    requires MAX_SUBSCRIPTION_ATTEMPTS * |batch| <= c && s.attempts <= c
    ensures var t := Acknowledge(s, batch, codes, i);
      t.attempts <= c && |t.resent| - t.attempts <= |s.resent| - s.attempts + Cost(c, Granted(codes, i))
    decreases |batch| - i
  {
    if i < |batch| && i < |codes| {
      if codes[i] < UNSPECIFIED_ERROR {
        ReadingGives(s.(attempts := 0, subscribed := true), batch, codes, i + 1, c);
      } else if s.attempts < MAX_SUBSCRIPTION_ATTEMPTS * |batch| {
        ReadingGives(Resubscribe(s.(attempts := s.attempts + 1), batch[i]), batch, codes, i + 1, c);
      }
    }
  }

  /** What granting a number of subscriptions can give. */
  predicate Gives(a: Account, b: Account, c: nat, granted: nat) {
    b.attempts <= c && b.resent - b.attempts <= a.resent - a.attempts + Cost(c, granted)
  }

  lemma GivesTogether(x: Account, y: Account, z: Account, c: nat, first: nat, second: nat)
    requires Gives(x, y, c, first) && Gives(y, z, c, second)
    ensures Gives(x, z, c, first + second)
  {
    CostOfSum(c, first, second);
  }

  lemma StepGives(s: FeedState, e: Event, c: nat)
    requires e.OnSubscribe? ==> MAX_SUBSCRIPTION_ATTEMPTS * |e.batch| <= c
    requires s.attempts <= c && !e.EndStop?
    ensures Gives(AccountOf(s), AccountOf(Handle(s, e)), c, GrantedBy(e))
  {
    if e.OnSubscribe? && e.index < |s.pending| {
      ReadingGives(s.(pending := Without(s.pending, e.index)), e.batch, e.codes, 0, c);
    }
  }

  lemma LastEventGives(s: FeedState, events: seq<Event>, c: nat)
    requires events != [] && HasBatchesWithin(events, c) && EndStop !in events
    requires HandleAll(s, events[..|events| - 1]).attempts <= c
    ensures var front := events[..|events| - 1];
      GrantedOver(events) == GrantedOver(front) + GrantedBy(events[|events| - 1]) &&
      Gives(AccountOf(HandleAll(s, front)), AccountOf(HandleAll(s, events)), c, GrantedBy(events[|events| - 1]))
  {
    var n := |events| - 1;
    LastEvent(s, events);
    StepGives(HandleAll(s, events[..n]), events[n], c);
  }

  lemma {:induction false} EventsGive(s: FeedState, events: seq<Event>, c: nat)
    requires s.attempts <= c && HasBatchesWithin(events, c) && EndStop !in events
    ensures Gives(AccountOf(s), AccountOf(HandleAll(s, events)), c, GrantedOver(events))
    decreases |events|
  {
    var n := |events| - 1;
    if n >= 0 {
      var first, before, after := AccountOf(s), AccountOf(HandleAll(s, events[..n])), AccountOf(HandleAll(s, events));
      SplitLast(events);
      EventsGive(s, events[..n], c);
      LastEventGives(s, events, c);
      GivesTogether(first, before, after, c, GrantedOver(events[..n]), GrantedBy(events[n]));
    }
  }

  /** Between stops, c of them for each granted subscription are the only others than the first c. */
  lemma ResendsPerGrant(s: FeedState, events: seq<Event>, c: nat)
    requires s.attempts <= c && HasBatchesWithin(events, c) && EndStop !in events
    ensures |HandleAll(s, events).resent| - |s.resent| <= c * (1 + GrantedOver(events))
  {
    EventsGive(s, events, c);
    CostOfSum(c, 1, GrantedOver(events));
    CostIsProduct(c, 1 + GrantedOver(events));
  }

  /** A connection, whose attempt ends, that is granted one topic and refused another, is then lost and
      followed by a new attempt. */
  function Round(bad: Topic, good: Topic, defaults: set<Topic>): seq<Event> {
    [OnConnect] + [EndConnect(Established)] + [OnSubscribe(0, [bad, good], [128, 0])] + [OnDisconnect]
    + [BeginConnect(defaults, true)]
  }

  function Rounds(bad: Topic, good: Topic, defaults: set<Topic>, n: nat): seq<Event> {
    if n == 0 then [] else Rounds(bad, good, defaults, n - 1) + Round(bad, good, defaults)
  }

  lemma {:induction false} HandleConcat(s: FeedState, a: seq<Event>, b: seq<Event>)
    ensures HandleAll(s, a + b) == HandleAll(HandleAll(s, a), b)
    decreases |b|
  {
    var n := |b| - 1;
    if n < 0 {
      assert a + b == a;
    } else {
      HandleConcat(s, a, b[..n]);
      OneMoreEvent(s, a + b[..n], b[n]);
      assert a + b == a + b[..n] + [b[n]];
    }
  }

  /** A connection attempt of a feed that is to know two topics and has asked for none yet. */
  predicate IsConnecting(s: FeedState, bad: Topic, good: Topic) {
    s.link.connectTask.Pending? && !s.link.shouldStop && s.attempts == 0 && s.pending == [] &&
    s.topics + s.defaults == {bad, good}
  }

  lemma RoundSendsAgain(s: FeedState, bad: Topic, good: Topic)
    requires IsConnecting(s, bad, good) && bad != good
    ensures var t := HandleAll(s, Round(bad, good, s.defaults));
      IsConnecting(t, bad, good) && t.resent == s.resent + [bad] && t.link.reconnecting && t.defaults == s.defaults
  {
    var answer := OnSubscribe(0, [bad, good], [128, 0]);
    var connected := Handle(Handle(s, OnConnect), EndConnect(Established));
    OneMoreEvent(s, [], OnConnect);
    assert [] + [OnConnect] == [OnConnect];
    OneMoreEvent(s, [OnConnect], EndConnect(Established));
    OneMoreEvent(s, [OnConnect] + [EndConnect(Established)], answer);
    OneMoreEvent(s, [OnConnect] + [EndConnect(Established)] + [answer], OnDisconnect);
    OneMoreEvent(s, [OnConnect] + [EndConnect(Established)] + [answer] + [OnDisconnect], BeginConnect(s.defaults, true));
    MixedBatch(connected, bad, good);
  }

  /** The number of connections does count: each one that is granted a topic gives the attempts back, so
      over n of them a refused topic is sent again n times, however far n exceeds the attempts allowed.
      Every connection but the first comes from a reconnection. */
  lemma {:induction false} AgainOnEachConnection(s: FeedState, bad: Topic, good: Topic, n: nat)
    requires IsConnecting(s, bad, good) && bad != good
    ensures var t := HandleAll(s, Rounds(bad, good, s.defaults, n));
      IsConnecting(t, bad, good) && t.resent == s.resent + seq(n, _ => bad) && (n > 0 ==> t.link.reconnecting) &&
      t.defaults == s.defaults
  {
    if n > 0 {
      var events := Rounds(bad, good, s.defaults, n - 1);
      AgainOnEachConnection(s, bad, good, n - 1);
      HandleConcat(s, events, Round(bad, good, s.defaults));
      RoundSendsAgain(HandleAll(s, events), bad, good);
    }
  }

  /** A feed that starts after a topic was registered, the other one being its default topic. */
  function Opening(bad: Topic, good: Topic, callback: Callback): seq<Event> {
    [Start] + [Register(bad, callback)] + [BeginConnect({good}, true)]
  }

  lemma AgainFromTheStart(bad: Topic, good: Topic, callback: Callback, n: nat)
    requires bad != good
    ensures HandleAll(INITIAL, Opening(bad, good, callback) + Rounds(bad, good, {good}, n)).resent == seq(n, _ => bad)
  {
    OneMoreEvent(INITIAL, [], Start);
    assert [] + [Start] == [Start];
    OneMoreEvent(INITIAL, [Start], Register(bad, callback));
    OneMoreEvent(INITIAL, [Start] + [Register(bad, callback)], BeginConnect({good}, true));
    HandleConcat(INITIAL, Opening(bad, good, callback), Rounds(bad, good, {good}, n));
    AgainOnEachConnection(HandleAll(INITIAL, Opening(bad, good, callback)), bad, good, n);
  }

  lemma MixedBatch(s: FeedState, bad: Topic, good: Topic)
    requires s.attempts == 0 && s.pending == [{bad, good}] && bad != good
    ensures Handle(s, OnSubscribe(0, [bad, good], [128, 0]))
      == s.(attempts := 0, subscribed := true, resent := s.resent + [bad], pending := [{bad}])
  {
    var batch, codes := [bad, good], [128, 0];
    assert IsOrderOf(batch, {bad, good});
    assert Without(s.pending, 0) == [];
    var one := Resubscribe(s.(pending := [], attempts := 1), bad);
    assert Acknowledge(one, batch, codes, 1) == one.(attempts := 0, subscribed := true);
  }

  // ---------- stopping while connecting ----------

  lemma HandleChangesLink(s: FeedState, e: Event)
    ensures Handle(s, e).link == HandleLink(s.link, e)
  {
    if e.OnSubscribe? {
      AnsweredKeepsTopics(s, e.index, e.batch, e.codes);
    }
  }

  /** What neither cancels a connection, nor ends a stop, nor finds no device. */
  predicate LeavesAuthentication(e: Event) {
    !e.EndStop? && !e.OnDisconnect? && (e.BeginConnect? ==> e.hasDevice)
  }

  lemma AuthenticationStep(s: FeedState, e: Event)
    requires LeavesAuthentication(e)
    ensures var before, after := s.link, Handle(s, e).link;
      if e.CancelSeen? && before.cancelledConnects > 0
      then after.cancelledConnects == before.cancelledConnects - 1 && !after.validAuth
      else after.cancelledConnects == before.cancelledConnects && after.validAuth == before.validAuth
  {
    HandleChangesLink(s, e);
  }

  lemma {:induction false} AuthenticationAfter(s: FeedState, events: seq<Event>)
    requires forall e :: e in events ==> LeavesAuthentication(e)
    requires s.link.validAuth
    ensures var t := HandleAll(s, events).link;
      if s.link.cancelledConnects > 0 && CancelSeen in events
      then t.cancelledConnects < s.link.cancelledConnects && !t.validAuth
      else t.cancelledConnects == s.link.cancelledConnects && t.validAuth
    decreases |events|
  {
    var n := |events| - 1;
    if n >= 0 {
      SplitLast(events);
      AuthenticationAfter(s, events[..n]);
      AuthenticationStep(HandleAll(s, events[..n]), events[n]);
    }
  }

  lemma SplitLast(events: seq<Event>)
    requires events != []
    ensures events[|events| - 1] in events
    ensures forall e :: e in events <==> e in events[..|events| - 1] || e == events[|events| - 1]
  {
    assert events == events[..|events| - 1] + [events[|events| - 1]];
  }

  /** Whatever follows a stop, the feed is still able to connect if and only if no connection was pending
      or waiting to see its cancellation, or none has seen it yet: one that does marks the authentication
      invalid after the stop has reset it. */
  lemma StopKeepsAuthentication(s: FeedState, events: seq<Event>)
    requires forall e :: e in events ==> LeavesAuthentication(e)
    ensures HandleAll(Handle(s, EndStop), events).link.validAuth
      <==> CancelledByStop(s.link) == 0 || CancelSeen !in events
  {
    AuthenticationAfter(Handle(s, EndStop), events);
  }

  /** Otherwise a new topic is remembered but not requested. */
  lemma StopWhileConnecting(s: FeedState, events: seq<Event>, topic: Topic, callback: Callback)
    requires forall e :: e in events ==> LeavesAuthentication(e)
    requires CancelledByStop(s.link) > 0 && CancelSeen in events
    ensures var t := HandleAll(Handle(s, EndStop), events); var u := Handle(t, Register(topic, callback));
      topic in u.topics && u.requested == t.requested
  {
    StopKeepsAuthentication(s, events);
  }

  /** It can happen: a first connection that is stopped. */
  lemma StopWhileConnectingIsReachable()
    ensures var s := HandleAll(INITIAL, [Start] + [BeginConnect({}, true)] + [BeginStop]);
      s.link.connectTask.Pending? && CancelledByStop(s.link) == 1
  {
    OneMoreEvent(INITIAL, [], Start);
    OneMoreEvent(INITIAL, [Start], BeginConnect({}, true));
    OneMoreEvent(INITIAL, [Start] + [BeginConnect({}, true)], BeginStop);
    assert [] + [Start] == [Start];
  }

  // ---------- connections ----------

  /** One event has happened, and none of another kind since. */
  ghost predicate Since(events: seq<Event>, on: Event -> bool, off: Event -> bool) {
    exists i | 0 <= i < |events| :: on(events[i]) && forall j | i < j < |events| :: !off(events[j])
  }

  lemma SinceOneMore(events: seq<Event>, on: Event -> bool, off: Event -> bool)
    requires events != []
    ensures var n := |events| - 1;
      Since(events, on, off) <==> on(events[n]) || (Since(events[..n], on, off) && !off(events[n]))
  {
    var n := |events| - 1;
    assert forall i | 0 <= i < n :: events[..n][i] == events[i];
    if Since(events[..n], on, off) && !off(events[n]) {
      var i :| 0 <= i < n && on(events[..n][i]) && forall j | i < j < n :: !off(events[..n][j]);
      assert on(events[i]) && forall j | i < j < |events| :: !off(events[j]);
    }
    if Since(events, on, off) && !on(events[n]) {
      var i :| 0 <= i < |events| && on(events[i]) && forall j | i < j < |events| :: !off(events[j]);
      assert on(events[..n][i]) && forall j | i < j < n :: !off(events[..n][j]);
    }
  }

  predicate BringsClient(e: Event) {
    e.BeginConnect? && e.hasDevice
  }

  predicate Never(e: Event) {
    false
  }

  predicate IsConnect(e: Event) {
    e.OnConnect?
  }

  predicate IsLoss(e: Event) {
    e.OnDisconnect? || e.EndStop?
  }

  /** There is a client once a connection with a device has begun. */
  lemma {:induction false} HasClientSince(events: seq<Event>)
    ensures HandleAll(INITIAL, events).link.hasClient <==> Since(events, BringsClient, Never)
    decreases |events|
  {
    var n := |events| - 1;
    if n >= 0 {
      HasClientSince(events[..n]);
      LinkFields(HandleAll(INITIAL, events[..n]), events[n]);
      SinceOneMore(events, BringsClient, Never);
    }
  }

  /** The feed is connected from a connection on until it is lost or a stop ends. */
  lemma {:induction false} ConnectedSince(events: seq<Event>)
    ensures !HandleAll(INITIAL, events).link.disconnected <==> Since(events, IsConnect, IsLoss)
    decreases |events|
  {
    var n := |events| - 1;
    if n >= 0 {
      ConnectedSince(events[..n]);
      LinkFields(HandleAll(INITIAL, events[..n]), events[n]);
      SinceOneMore(events, IsConnect, IsLoss);
    }
  }

  /** What an event does to the connection, flag by flag: who sets it and who resets it. */
  predicate ChangesFlags(a: Link, e: Event, b: Link) {
    && b.hasClient == (a.hasClient || BringsClient(e))
    && b.shouldStop == (e.BeginStop? || (a.shouldStop && !e.Start?))
    && b.disconnected == (IsLoss(e) || (a.disconnected && !e.OnConnect?))
  }

  predicate ChangesTrust(a: Link, e: Event, b: Link) {
    && b.validAuth == (e.EndStop? ||
      (a.validAuth && !(e.BeginConnect? && !e.hasDevice) && !(e.CancelSeen? && a.cancelledConnects > 0)))
    && b.connectedAtLeastOnce == (!e.EndStop? &&
      (a.connectedAtLeastOnce || (e == EndConnect(Established) && a.connectTask.Pending?)))
    && b.reconnecting == (!e.EndReconnect? &&
      (a.reconnecting || (e.OnDisconnect? && !a.shouldStop && a.connectedAtLeastOnce)))
  }

  /** A stop, or a first connection being refused, cancels the one that is pending. */
  predicate Cancels(a: Link, e: Event) {
    a.connectTask.Pending? && (e.EndStop? || (e.OnDisconnect? && !a.shouldStop && !a.connectedAtLeastOnce))
  }

  predicate ChangesTasks(a: Link, e: Event, b: Link) {
    && b.cancelledConnects == a.cancelledConnects + (if Cancels(a, e) then 1 else 0) -
      (if e.CancelSeen? && a.cancelledConnects > 0 then 1 else 0)
    && b.connectTask == (
      if BringsClient(e) then Pending
      else if e.EndStop? then NoTask
      else if a.connectTask.Pending? && (Cancels(a, e) || e.EndConnect?) then Finished
      else a.connectTask)
  }

  lemma LinkFlags(a: Link, e: Event)
    ensures ChangesFlags(a, e, HandleLink(a, e))
  {
  }

  lemma LinkTrust(a: Link, e: Event)
    ensures ChangesTrust(a, e, HandleLink(a, e))
  {
  }

  lemma LinkTasks(a: Link, e: Event)
    ensures ChangesTasks(a, e, HandleLink(a, e))
  {
  }

  lemma LinkFields(s: FeedState, e: Event)
    ensures ChangesFlags(s.link, e, Handle(s, e).link)
    ensures ChangesTrust(s.link, e, Handle(s, e).link)
    ensures ChangesTasks(s.link, e, Handle(s, e).link)
  {
    HandleChangesLink(s, e);
    LinkFlags(s.link, e);
    LinkTrust(s.link, e);
    LinkTasks(s.link, e);
  }

  /** ... and to the subscriptions, SUBACKs, connections and registrations apart. */
  lemma FeedFields(s: FeedState, e: Event)
    ensures var t := Handle(s, e);
      && t.defaults == (if e.BeginConnect? then e.defaults else s.defaults)
      && (e.OnConnect? || e.OnDisconnect? ==> !t.subscribed)
      && (e.EndStop? ==> t.attempts == 0)
      && (BringsClient(e) ==> t.pending == [])
      && (!e.OnSubscribe? && !e.OnConnect? && !e.OnDisconnect? ==> t.subscribed == s.subscribed)
      && (!e.OnSubscribe? && !e.EndStop? ==> t.attempts == s.attempts)
      && (!e.OnSubscribe? && !e.OnConnect? && !e.Register? && !BringsClient(e) ==> t.pending == s.pending)
  {
    if e.OnSubscribe? {
      AnsweredKeepsDefaults(s, e.index, e.batch, e.codes);
    }
  }

  lemma AnsweredKeepsDefaults(s: FeedState, index: nat, batch: seq<Topic>, codes: seq<nat>)
    ensures Answered(s, index, batch, codes).defaults == s.defaults
  {
    if index < |s.pending| {
      AcknowledgeKeepsDefaults(s.(pending := Without(s.pending, index)), batch, codes, 0);
    }
  }

  lemma {:induction false} AcknowledgeKeepsDefaults(s: FeedState, batch: seq<Topic>, codes: seq<nat>, i: nat)
    ensures Acknowledge(s, batch, codes, i).defaults == s.defaults
    decreases |batch| - i
  {
    if i < |batch| && i < |codes| {
      if codes[i] < UNSPECIFIED_ERROR {
        AcknowledgeKeepsDefaults(s.(attempts := 0, subscribed := true), batch, codes, i + 1);
      } else if s.attempts < MAX_SUBSCRIPTION_ATTEMPTS * |batch| {
        AcknowledgeKeepsDefaults(Resubscribe(s.(attempts := s.attempts + 1), batch[i]), batch, codes, i + 1);
      }
    }
  }

  predicate IsUp(link: Link) {
    link.connectedAtLeastOnce && !link.shouldStop
  }

  lemma {:induction false} StaysUp(s: FeedState, events: seq<Event>)
    requires IsUp(s.link) && BeginStop !in events && EndStop !in events
    ensures IsUp(HandleAll(s, events).link)
    ensures HandleAll(s, events).link.cancelledConnects <= s.link.cancelledConnects
    decreases |events|
  {
    var n := |events| - 1;
    if n >= 0 {
      SplitLast(events);
      StaysUp(s, events[..n]);
      HandleChangesLink(HandleAll(s, events[..n]), events[n]);
    }
  }

  /** Once a connection was established, each one lost before a stop is followed by a reconnection, and none is
      cancelled for it. */
  lemma LostConnectionReconnects(s: FeedState, events: seq<Event>)
    requires s.link.connectTask.Pending? && !s.link.shouldStop
    requires BeginStop !in events && EndStop !in events
    ensures var t := HandleAll(Handle(s, EndConnect(Established)), events + [OnDisconnect]).link;
      t.reconnecting && t.disconnected && t.cancelledConnects <= s.link.cancelledConnects
  {
    var up := Handle(s, EndConnect(Established));
    StaysUp(up, events);
    OneMoreEvent(up, events, OnDisconnect);
  }

  /** A first connection that is refused is cancelled instead, and once it has seen that, the authentication is
      invalid; so it is when there is no device. A connection that merely times out leaves it. */
  lemma FirstConnectionFails(s: FeedState, events: seq<Event>, defaults: set<Topic>)
    requires s.link.validAuth && !s.link.connectedAtLeastOnce && !s.link.shouldStop && s.link.connectTask.Pending?
    requires forall e :: e in events ==> LeavesAuthentication(e)
    ensures Handle(s, OnDisconnect).link.reconnecting == s.link.reconnecting
    ensures HandleAll(Handle(s, OnDisconnect), events).link.validAuth <==> CancelSeen !in events
    ensures !Handle(s, BeginConnect(defaults, false)).link.validAuth
    ensures Handle(s, EndConnect(TimedOut)).link == s.link.(connectTask := Finished)
  {
    AuthenticationAfter(Handle(s, OnDisconnect), events);
  }

  /** After a stop a lost connection is not replaced. */
  lemma StoppedStaysDown(s: FeedState)
    requires s.link.shouldStop
    ensures Handle(s, OnDisconnect).link == s.link.(disconnected := true) && !Handle(s, OnDisconnect).subscribed
  {
  }
}
