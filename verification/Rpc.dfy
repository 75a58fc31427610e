/** Calls over a message queue: clients that share one channel, servers that share one request queue
    (components/nxpod-messagebus/src/rpc-client.ts and rpc-server.ts). */
module Rpc {

  type Id = string

  datatype Message<T> = Message(id: Id, content: T)

  /** All that is in flight. `calls` lists every call ever made; its positions name the promises. */
  datatype Traffic<Req, Resp> = Traffic(
    calls: seq<Message<Req>>,
    queue: seq<Message<Req>>,
    handling: seq<Message<Req>>,
    replies: seq<Message<Resp>>,
    listeners: map<Id, seq<nat>>,
    resolved: map<nat, Resp>)

  datatype Event<Req, Resp> =
    | Call(id: Id, req: Req)
    | Consume
    | Finish(handler: nat, resp: Resp)
    | Deliver(reply: nat)

  function Initial<Req, Resp>(): Traffic<Req, Resp> {
    Traffic([], [], [], [], map[], map[])
  }

  function Without<T>(s: seq<T>, i: nat): (r: seq<T>)
    requires i < |s|
    ensures |r| == |s| - 1
  {
    s[..i] + s[i + 1..]
  }

  /** The one-shot listeners of an event. */
  function Listeners(m: map<Id, seq<nat>>, id: Id): seq<nat> {
    if id in m then m[id] else []
  }

  /** Promises keep their first resolution. */
  function Resolve<Resp>(resolved: map<nat, Resp>, promises: seq<nat>, resp: Resp): map<nat, Resp> {
    (map k | k in promises :: resp) + resolved
  }

  /** A call needs a fresh correlation id; handlers finish in any order, with any answer to their own request, and
      replies arrive in any order. */
  ghost predicate Enabled<Req, Resp>(answers: (Req, Resp) -> bool, s: Traffic<Req, Resp>, e: Event<Req, Resp>) {
    match e
    case Call(id, _) => forall k | 0 <= k < |s.calls| :: s.calls[k].id != id
    case Consume => s.queue != []
    case Finish(i, resp) => i < |s.handling| && answers(s.handling[i].content, resp)
    case Deliver(i) => i < |s.replies|
  }

  function Next<Req, Resp>(s: Traffic<Req, Resp>, e: Event<Req, Resp>): Traffic<Req, Resp> {
    match e
    case Call(id, req) =>
      s.(calls := s.calls + [Message(id, req)],
         queue := s.queue + [Message(id, req)],
         listeners := s.listeners[id := Listeners(s.listeners, id) + [|s.calls|]])
    case Consume =>
      if s.queue == [] then s else s.(queue := s.queue[1..], handling := s.handling + [s.queue[0]])
    case Finish(i, resp) =>
      if i >= |s.handling| then s
      else s.(handling := Without(s.handling, i), replies := s.replies + [Message(s.handling[i].id, resp)])
    case Deliver(i) =>
      if i >= |s.replies| then s
      else s.(replies := Without(s.replies, i),
              listeners := s.listeners - {s.replies[i].id},
              resolved := Resolve(s.resolved, Listeners(s.listeners, s.replies[i].id), s.replies[i].content))
  }

  function After<Req, Resp>(s: Traffic<Req, Resp>, run: seq<Event<Req, Resp>>): Traffic<Req, Resp>
    decreases |run|
  {
    if run == [] then s else After(Next(s, run[0]), run[1..])
  }

  ghost predicate IsRun<Req, Resp>(answers: (Req, Resp) -> bool, s: Traffic<Req, Resp>, run: seq<Event<Req, Resp>>)
    decreases |run|
  {
    run == [] || (Enabled(answers, s, run[0]) && IsRun(answers, Next(s, run[0]), run[1..]))
  }

  // ---- Where a call is ----

  function Occurrences<T>(s: seq<Message<T>>, id: Id): (n: nat) {
    if s == [] then 0 else (if s[0].id == id then 1 else 0) + Occurrences(s[1..], id)
  }

  /** In how many places call `k` is: waiting, in the hands of a server, on its way back, or resolved. */
  function Places<Req, Resp>(s: Traffic<Req, Resp>, k: nat): nat
    requires k < |s.calls|
  {
    var id := s.calls[k].id;
    Occurrences(s.queue, id) + Occurrences(s.handling, id) + Occurrences(s.replies, id)
    + if k in s.resolved then 1 else 0
  }

  ghost predicate FreshIds<T>(calls: seq<Message<T>>) {
    forall j, k | 0 <= j < k < |calls| :: calls[j].id != calls[k].id
  }

  ghost predicate OwnRequests<T>(calls: seq<Message<T>>, s: seq<Message<T>>) {
    forall m | m in s :: m in calls
  }

  /** Every reply answers the call whose id it carries. */
  ghost predicate OwnAnswers<Req, Resp>(answers: (Req, Resp) -> bool, s: Traffic<Req, Resp>) {
    && (forall m | m in s.replies :: exists c :: c in s.calls && c.id == m.id && answers(c.content, m.content))
    && (forall k | k in s.resolved :: k < |s.calls| && answers(s.calls[k].content, s.resolved[k]))
  }

  /** Each call has exactly one listener until it is resolved, and no other listeners exist. */
  ghost predicate OwnListeners<Req, Resp>(s: Traffic<Req, Resp>) {
    && (forall k: nat | k < |s.calls| && k !in s.resolved :: Listeners(s.listeners, s.calls[k].id) == [k])
    && (forall k: nat | k < |s.calls| && k in s.resolved :: s.calls[k].id !in s.listeners)
    && (forall id | id in s.listeners :: exists c :: c in s.calls && c.id == id)
  }

  ghost predicate OnePlace<Req, Resp>(s: Traffic<Req, Resp>) {
    forall k: nat | k < |s.calls| :: Places(s, k) == 1
  }

  ghost predicate Inv<Req, Resp>(answers: (Req, Resp) -> bool, s: Traffic<Req, Resp>) {
    && FreshIds(s.calls)
    && OwnRequests(s.calls, s.queue)
    && OwnRequests(s.calls, s.handling)
    && OwnAnswers(answers, s)
    && OwnListeners(s)
    && OnePlace(s)
  }

  lemma {:induction false} OccurrencesConcat<T>(a: seq<Message<T>>, b: seq<Message<T>>, id: Id)
    ensures Occurrences(a + b, id) == Occurrences(a, id) + Occurrences(b, id)
  {
    if a == [] {
      assert a + b == b;
    } else {
      assert (a + b)[1..] == a[1..] + b;
      OccurrencesConcat(a[1..], b, id);
    }
  }

  lemma OccurrencesWithout<T>(s: seq<Message<T>>, i: nat, id: Id)
    requires i < |s|
    ensures Occurrences(s, id) == Occurrences(Without(s, i), id) + if s[i].id == id then 1 else 0
  {
    assert s == s[..i] + ([s[i]] + s[i + 1..]);
    OccurrencesConcat(s[..i], [s[i]] + s[i + 1..], id);
    OccurrencesConcat([s[i]], s[i + 1..], id);
    OccurrencesConcat(s[..i], s[i + 1..], id);
  }

  lemma {:induction false} NotOccurring<T>(s: seq<Message<T>>, id: Id)
    ensures Occurrences(s, id) == 0 <==> forall m | m in s :: m.id != id
  {
    if s != [] {
      NotOccurring(s[1..], id);
      assert s == [s[0]] + s[1..];
    }
  }

  // ---- Every step keeps the invariant ----

  /** A fresh id occurs nowhere yet. */
  lemma FreshIdIsNew<Req, Resp>(answers: (Req, Resp) -> bool, s: Traffic<Req, Resp>, id: Id)
    requires Inv(answers, s) && forall k | 0 <= k < |s.calls| :: s.calls[k].id != id
    ensures Occurrences(s.queue, id) == 0 && Occurrences(s.handling, id) == 0 && Occurrences(s.replies, id) == 0
    ensures id !in s.listeners && |s.calls| !in s.resolved
  {
    NotOccurring(s.queue, id);
    NotOccurring(s.handling, id);
    NotOccurring(s.replies, id);
    forall m | m in s.replies ensures m.id != id {
      var c :| c in s.calls && c.id == m.id && answers(c.content, m.content);
    }
  }

  lemma CallKeepsPlaces<Req, Resp>(answers: (Req, Resp) -> bool, s: Traffic<Req, Resp>, id: Id, req: Req)
    requires Inv(answers, s) && Enabled(answers, s, Call(id, req))
    ensures OnePlace(Next(s, Call(id, req)))
  {
    var t := Next(s, Call(id, req));
    FreshIdIsNew(answers, s, id);
    forall k: nat | k < |t.calls| ensures Places(t, k) == 1 {
      OccurrencesConcat(s.queue, [Message(id, req)], t.calls[k].id);
      if k < |s.calls| {
        assert Places(s, k) == 1;
      }
    }
  }

  lemma CallKeepsListeners<Req, Resp>(answers: (Req, Resp) -> bool, s: Traffic<Req, Resp>, id: Id, req: Req)
    requires Inv(answers, s) && Enabled(answers, s, Call(id, req))
    ensures OwnListeners(Next(s, Call(id, req)))
  {
    hide OnePlace, OwnAnswers, OwnRequests;
    var t := Next(s, Call(id, req));
    FreshIdIsNew(answers, s, id);
    forall k: nat | k < |t.calls| && k !in t.resolved ensures Listeners(t.listeners, t.calls[k].id) == [k] {
      if k < |s.calls| {
        assert s.calls[k].id != id;
        assert Listeners(s.listeners, s.calls[k].id) == [k];
      }
    }
    forall k: nat | k < |t.calls| && k in t.resolved ensures t.calls[k].id !in t.listeners {
      assert k != |s.calls| && s.calls[k].id !in s.listeners && s.calls[k].id != id;
    }
    forall x | x in t.listeners ensures exists c :: c in t.calls && c.id == x {
      if x == id {
        assert Message(id, req) in t.calls;
      } else {
        var c :| c in s.calls && c.id == x;
        assert c in t.calls;
      }
    }
  }

  lemma CallKeepsAnswers<Req, Resp>(answers: (Req, Resp) -> bool, s: Traffic<Req, Resp>, id: Id, req: Req)
    requires Inv(answers, s) && Enabled(answers, s, Call(id, req))
    ensures OwnAnswers(answers, Next(s, Call(id, req)))
  {
    var t := Next(s, Call(id, req));
    forall m | m in t.replies ensures exists c :: c in t.calls && c.id == m.id && answers(c.content, m.content) {
      var c :| c in s.calls && c.id == m.id && answers(c.content, m.content);
      assert c in t.calls;
    }
  }

  lemma ConsumeKeepsInv<Req, Resp>(answers: (Req, Resp) -> bool, s: Traffic<Req, Resp>)
    requires Inv(answers, s) && s.queue != []
    ensures Inv(answers, Next(s, Consume))
  {
    var t := Next(s, Consume);
    forall k: nat | k < |t.calls| ensures Places(t, k) == 1 {
      OccurrencesConcat(s.handling, [s.queue[0]], s.calls[k].id);
      assert Places(s, k) == 1;
    }
  }

  lemma FinishKeepsInv<Req, Resp>(answers: (Req, Resp) -> bool, s: Traffic<Req, Resp>, i: nat, resp: Resp)
    requires Inv(answers, s) && Enabled(answers, s, Finish(i, resp))
    ensures Inv(answers, Next(s, Finish(i, resp)))
  {
    var t := Next(s, Finish(i, resp));
    var m := s.handling[i];
    assert m in s.handling && m in s.calls;
    forall k: nat | k < |t.calls| ensures Places(t, k) == 1 {
      OccurrencesWithout(s.handling, i, s.calls[k].id);
      OccurrencesConcat(s.replies, [Message(m.id, resp)], s.calls[k].id);
      assert Places(s, k) == 1;
    }
  }

  /** A delivered reply finds exactly the listener of its own call. */
  lemma DeliverFindsCall<Req, Resp>(answers: (Req, Resp) -> bool, s: Traffic<Req, Resp>, i: nat) returns (k: nat)
    requires Inv(answers, s) && i < |s.replies|
    ensures k < |s.calls| && s.calls[k].id == s.replies[i].id && k !in s.resolved
    ensures Listeners(s.listeners, s.replies[i].id) == [k]
    ensures answers(s.calls[k].content, s.replies[i].content)
    ensures Next(s, Deliver(i)).resolved == s.resolved[k := s.replies[i].content]
  {
    var m := s.replies[i];
    assert m in s.replies;
    var c :| c in s.calls && c.id == m.id && answers(c.content, m.content);
    k :| 0 <= k < |s.calls| && s.calls[k] == c;
    NotYetResolved(s, i, k);
    assert Listeners(s.listeners, c.id) == [k];
  }

  lemma NotYetResolved<Req, Resp>(s: Traffic<Req, Resp>, i: nat, k: nat)
    requires OnePlace(s) && k < |s.calls| && i < |s.replies| && s.replies[i].id == s.calls[k].id
    ensures k !in s.resolved
  {
    assert Places(s, k) == 1;
    OccurrencesWithout(s.replies, i, s.calls[k].id);
  }

  lemma DeliverKeepsPlaces<Req, Resp>(answers: (Req, Resp) -> bool, s: Traffic<Req, Resp>, i: nat)
    requires Inv(answers, s) && i < |s.replies|
    ensures OnePlace(Next(s, Deliver(i)))
  {
    var t := Next(s, Deliver(i));
    var d := DeliverFindsCall(answers, s, i);
    forall k: nat | k < |t.calls| ensures Places(t, k) == 1 {
      assert Places(s, k) == 1;
      OccurrencesWithout(s.replies, i, s.calls[k].id);
      assert k != d ==> s.calls[k].id != s.calls[d].id;
    }
  }

  lemma DeliverKeepsListeners<Req, Resp>(answers: (Req, Resp) -> bool, s: Traffic<Req, Resp>, i: nat)
    requires Inv(answers, s) && i < |s.replies|
    ensures OwnListeners(Next(s, Deliver(i)))
  {
    var t := Next(s, Deliver(i));
    var d := DeliverFindsCall(answers, s, i);
    assert t.resolved.Keys == s.resolved.Keys + {d};
    forall k: nat | k < |t.calls| && k !in t.resolved ensures Listeners(t.listeners, t.calls[k].id) == [k] {
      assert s.calls[k].id != s.calls[d].id;
      assert Listeners(s.listeners, s.calls[k].id) == [k];
    }
  }

  lemma DeliverKeepsAnswers<Req, Resp>(answers: (Req, Resp) -> bool, s: Traffic<Req, Resp>, i: nat)
    requires Inv(answers, s) && i < |s.replies|
    ensures OwnAnswers(answers, Next(s, Deliver(i)))
  {
    var d := DeliverFindsCall(answers, s, i);
    assert forall m | m in Next(s, Deliver(i)).replies :: m in s.replies;
  }

  lemma StepKeepsInv<Req, Resp>(answers: (Req, Resp) -> bool, s: Traffic<Req, Resp>, e: Event<Req, Resp>)
    requires Inv(answers, s) && Enabled(answers, s, e)
    ensures Inv(answers, Next(s, e))
  {
    match e
    case Call(id, req) =>
      CallKeepsPlaces(answers, s, id, req);
      CallKeepsListeners(answers, s, id, req);
      CallKeepsAnswers(answers, s, id, req);
    case Consume => ConsumeKeepsInv(answers, s);
    case Finish(i, resp) => FinishKeepsInv(answers, s, i, resp);
    case Deliver(i) =>
      DeliverKeepsPlaces(answers, s, i);
      DeliverKeepsListeners(answers, s, i);
      DeliverKeepsAnswers(answers, s, i);
  }

  lemma {:induction false} RunKeepsInv<Req, Resp>(answers: (Req, Resp) -> bool, s: Traffic<Req, Resp>,
                                                   run: seq<Event<Req, Resp>>)
    requires Inv(answers, s) && IsRun(answers, s, run)
    ensures Inv(answers, After(s, run))
    decreases |run|
  {
    if run != [] {
      StepKeepsInv(answers, s, run[0]);
      RunKeepsInv(answers, Next(s, run[0]), run[1..]);
    }
  }

  /** Requests wait in the order in which they were sent, and the oldest is taken first: what is waiting are always
      the last of the calls. */
  ghost predicate FirstComeFirstServed<Req, Resp>(s: Traffic<Req, Resp>) {
    |s.queue| <= |s.calls| && s.queue == s.calls[|s.calls| - |s.queue|..]
  }

  lemma {:induction false} TakenInOrder<Req, Resp>(answers: (Req, Resp) -> bool, s: Traffic<Req, Resp>,
                                                   run: seq<Event<Req, Resp>>)
    requires FirstComeFirstServed(s) && IsRun(answers, s, run)
    ensures FirstComeFirstServed(After(s, run))
    decreases |run|
  {
    if run != [] {
      StepTakesInOrder(s, run[0]);
      TakenInOrder(answers, Next(s, run[0]), run[1..]);
    }
  }

  lemma StepTakesInOrder<Req, Resp>(s: Traffic<Req, Resp>, e: Event<Req, Resp>)
    requires FirstComeFirstServed(s)
    ensures FirstComeFirstServed(Next(s, e))
  {
    var t := Next(s, e);
    if e.Call? {
      assert t.calls[|t.calls| - |t.queue|..] == s.calls[|s.calls| - |s.queue|..] + [Message(e.id, e.req)];
    } else if e.Consume? && s.queue != [] {
      assert t.queue == s.queue[1..];
    }
  }

  // ---- Whole runs ----

  /** In every run each call is in exactly one place, and a resolved call holds an answer to its own request. */
  lemma EveryCallInOnePlace<Req, Resp>(answers: (Req, Resp) -> bool, run: seq<Event<Req, Resp>>)
    requires IsRun(answers, Initial(), run)
    ensures var s := After(Initial(), run);
      && (forall k: nat | k < |s.calls| :: Places(s, k) == 1)
      && (forall k | k in s.resolved :: k < |s.calls| && answers(s.calls[k].content, s.resolved[k]))
  {
    RunKeepsInv(answers, Initial(), run);
  }

  /** What is resolved stays as it was resolved. */
  lemma {:induction false} ResolvedOnce<Req, Resp>(answers: (Req, Resp) -> bool, s: Traffic<Req, Resp>,
                                                   run: seq<Event<Req, Resp>>)
    requires Inv(answers, s) && IsRun(answers, s, run)
    ensures forall k | k in s.resolved :: k in After(s, run).resolved && After(s, run).resolved[k] == s.resolved[k]
    ensures s.calls <= After(s, run).calls
    decreases |run|
  {
    if run != [] {
      StepKeepsInv(answers, s, run[0]);
      ResolvedOnce(answers, Next(s, run[0]), run[1..]);
    }
  }

  ghost predicate Quiescent<Req, Resp>(s: Traffic<Req, Resp>) {
    s.queue == [] && s.handling == [] && s.replies == []
  }

  /** Once nothing is in flight, every call is resolved and no listener is left. */
  lemma QuiescentMeansResolved<Req, Resp>(answers: (Req, Resp) -> bool, run: seq<Event<Req, Resp>>)
    requires IsRun(answers, Initial(), run) && Quiescent(After(Initial(), run))
    ensures var s := After(Initial(), run);
      && (forall k: nat :: k in s.resolved <==> k < |s.calls|)
      && s.listeners == map[]
  {
    RunKeepsInv(answers, Initial(), run);
    var s := After(Initial(), run);
    forall k: nat | k < |s.calls| ensures k in s.resolved && s.calls[k].id !in s.listeners {
      assert Places(s, k) == 1;
    }
  }

  /** How many steps are still needed to resolve everything in flight. */
  function Pending<Req, Resp>(s: Traffic<Req, Resp>): nat {
    3 * |s.queue| + 2 * |s.handling| + |s.replies|
  }

  /** When no further calls are made, each step brings quiescence one step closer, whatever the order. */
  lemma {:induction false} Drains<Req, Resp>(answers: (Req, Resp) -> bool, s: Traffic<Req, Resp>,
                                             run: seq<Event<Req, Resp>>)
    requires IsRun(answers, s, run) && forall e | e in run :: !e.Call?
    ensures |run| <= Pending(s) && Pending(After(s, run)) == Pending(s) - |run|
    ensures Quiescent(After(s, run)) <==> |run| == Pending(s)
    decreases |run|
  {
    if run != [] {
      assert run[0] in run;
      Drains(answers, Next(s, run[0]), run[1..]);
    }
  }

  /** As long as handlers can answer, something can happen until everything is resolved. */
  lemma NoDeadlock<Req, Resp>(answers: (Req, Resp) -> bool, s: Traffic<Req, Resp>) returns (e: Event<Req, Resp>)
    requires !Quiescent(s)
    requires forall m | m in s.handling :: exists resp :: answers(m.content, resp)
    ensures Enabled(answers, s, e) && !e.Call?
  {
    if s.replies != [] {
      e := Deliver(0);
    } else if s.queue != [] {
      e := Consume;
    } else {
      assert s.handling[0] in s.handling;
      var resp :| answers(s.handling[0].content, resp);
      e := Finish(0, resp);
    }
  }

  /** The ids must be fresh: with a repeated one, the answer to the first request resolves both calls. */
  lemma RepeatedIdMixesAnswers<Req, Resp>(id: Id, a: Req, b: Req, answer: Resp)
    ensures var s := After(Initial(), [Call(id, a), Call(id, b), Consume, Finish(0, answer), Deliver(0)]);
      && s.calls == [Message(id, a), Message(id, b)]
      && s.resolved == map[0 := answer, 1 := answer]
      && s.queue == [Message(id, b)]
  {
    var s0: Traffic<Req, Resp> := Initial();
    var s1 := Next(s0, Call(id, a));
    var s2 := Next(s1, Call(id, b));
    var s3 := Next(s2, Consume);
    var s4 := Next(s3, Finish(0, answer));
    var s5 := Next(s4, Deliver(0));
    var run := [Call(id, a), Call(id, b), Consume, Finish(0, answer), Deliver(0)];
    assert run[1..][1..] == [Consume, Finish(0, answer), Deliver(0)];
    assert run[1..][1..][1..][1..] == [Deliver(0)];
    assert After(s0, run) == After(s2, run[1..][1..]) == After(s4, run[1..][1..][1..][1..]) == s5;
    assert s2.listeners[id] == [0, 1];
  }

  // ---- The classes ----

  lemma ResolveNext<Resp>(resolved: map<nat, Resp>, promises: seq<nat>, i: nat, resp: Resp)
    requires i < |promises|
    ensures var before := Resolve(resolved, promises[..i], resp);
      Resolve(resolved, promises[..i + 1], resp)
      == if promises[i] in before then before else before[promises[i] := resp]
  {
    assert promises[..i + 1] == promises[..i] + [promises[i]];
  }

  /** The channel: its queues at the broker, and the emitter that all of its clients share. */
  class Channel<Req, Resp> {
    ghost var calls: seq<Message<Req>>
    var promises: nat
    var queue: seq<Message<Req>>
    ghost var handling: seq<Message<Req>>
    var replies: seq<Message<Resp>>
    var hasEmitter: bool
    var listeners: map<Id, seq<nat>>
    var resolved: map<nat, Resp>

    constructor ()
      ensures State() == Initial() && Valid() && !hasEmitter
    {
      calls, promises, queue, handling, replies := [], 0, [], [], [];
      hasEmitter, listeners, resolved := false, map[], map[];
    }

    ghost predicate Valid() reads this {
      promises == |calls| && (!hasEmitter ==> listeners == map[] && calls == [])
    }

    ghost function State(): Traffic<Req, Resp> reads this {
      Traffic(calls, queue, handling, replies, listeners, resolved)
    }
  }

  class RpcClient<Req, Resp> {
    const channel: Channel<Req, Resp>

    /** A further client on the channel keeps the emitter and everybody's listeners. */
    constructor (channel: Channel<Req, Resp>)
      requires channel.Valid()
      modifies channel
      ensures this.channel == channel
      ensures channel.Valid() && channel.hasEmitter && channel.State() == old(channel.State())
    {
      this.channel := channel;
      new;
      if !channel.hasEmitter {
        channel.hasEmitter := true;
        channel.listeners := map[];
      }
    }

    /** Sends the request and registers for its reply; the reply cannot come in between. */
    method Call(id: Id, req: Req) returns (promise: nat)
      requires channel.Valid() && channel.hasEmitter
      modifies channel
      ensures channel.Valid() && channel.hasEmitter && promise == old(|channel.calls|)
      ensures channel.State() == Next(old(channel.State()), Event.Call(id, req))
    {
      channel.calls := channel.calls + [Message(id, req)];
      channel.queue := channel.queue + [Message(id, req)];
      promise := WaitForResponse(id);
    }

    method WaitForResponse(id: Id) returns (promise: nat)
      modifies channel`promises, channel`listeners
      ensures promise == old(channel.promises) && channel.promises == promise + 1
      ensures channel.listeners == old(channel.listeners)[id := Listeners(old(channel.listeners), id) + [promise]]
    {
      promise := channel.promises;
      channel.promises := promise + 1;
      channel.listeners := channel.listeners[id := Listeners(channel.listeners, id) + [promise]];
    }

    /** The consumer of the reply queue: emits the reply that the broker delivers under its correlation id. */
    method OnReply(i: nat)
      requires channel.Valid() && channel.hasEmitter && i < |channel.replies|
      modifies channel
      ensures channel.Valid() && channel.hasEmitter
      ensures channel.State() == Next(old(channel.State()), Deliver(i))
    {
      var msg := channel.replies[i];
      channel.replies := Without(channel.replies, i);
      var once := Listeners(channel.listeners, msg.id);
      ghost var before := channel.resolved;
      channel.listeners := channel.listeners - {msg.id};
      for j := 0 to |once|
        modifies channel`resolved
        invariant channel.resolved == Resolve(before, once[..j], msg.content)
      {
        if once[j] !in channel.resolved {
          channel.resolved := channel.resolved[once[j] := msg.content];
        }
        ResolveNext(before, once, j, msg.content);
      }
      assert once[..|once|] == once;
    }
  }

  class RpcServer<Req, Resp> {
    const channel: Channel<Req, Resp>

    constructor (channel: Channel<Req, Resp>)
      ensures this.channel == channel
    {
      this.channel := channel;
    }

    /** Takes the next request off the queue, acknowledges it and starts a handler for it. */
    method OnRequest() returns (msg: Message<Req>)
      requires channel.Valid() && channel.queue != []
      modifies channel`queue, channel`handling
      ensures channel.Valid() && msg == old(channel.queue[0])
      ensures channel.State() == Next(old(channel.State()), Consume)
    {
      msg := channel.queue[0];
      channel.queue := channel.queue[1..];
      channel.handling := channel.handling + [msg];
    }

    /** The end of a handler: publishes what `handleRequest` made of the message, or the error it threw. */
    method FinishHandling(msg: Message<Req>, resp: Resp, ghost i: nat)
      requires channel.Valid() && i < |channel.handling| && channel.handling[i] == msg
      modifies channel`handling, channel`replies
      ensures channel.Valid() && channel.State() == Next(old(channel.State()), Finish(i, resp))
    {
      channel.handling := Without(channel.handling, i);
      channel.replies := channel.replies + [Message(msg.id, resp)];
    }
  }
}
