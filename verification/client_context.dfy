/**
 * The client side: the embedded app's module-level `context` singleton. Its
 * state is the `isReady` flag and two ordered callback arrays; loading the
 * module posts `init` to the parent. Unlike the host, sending is not gated
 * on readiness, and the ready-callback array is never cleared.
 */
module ClientContext {
  import opened Wrappers
  import opened JsValue
  import opened Protocol
  import opened Inbound
  import opened Dispatch

  datatype Context = Context(
    ready: bool,
    readyCallbacks: seq<CallbackId>,
    messageCallbacks: seq<CallbackId>)

  /** The closure returned by `onReady` / `onMessage`, identified by the list and callback it removes. */
  datatype Unsubscriber = ReadyUnsubscriber(id: CallbackId) | MessageUnsubscriber(id: CallbackId)

  /** A registration: the new state, what it did at once, and its unsubscribe closure. */
  datatype Registration = Registration(state: Context, effects: seq<Effect>, unsubscribe: Unsubscriber)

  /** Module load: empty state, and a single `init` posted to the parent. */
  function Load(): (r: Step<Context>)
    ensures !r.state.ready && r.state.readyCallbacks == [] && r.state.messageCallbacks == []
    ensures Posts(r.effects) == [Init] && Calls(r.effects) == []
  {
    Step(Context(false, [], []), [Post(Init)])
  }

  /**
   * The window `message` listener. On `bootstrap`: set ready, then invoke
   * every stored ready callback once, in registration order (the list is kept,
   * so a later `bootstrap` invokes them again). On `message`: invoke every
   * message callback once, in registration order, with `data.payload`, ready
   * or not. Everything else, `init` included, is ignored.
   */
  function Receive(c: Context, data: Value): (r: Step<Context>)
    ensures r.state.readyCallbacks == c.readyCallbacks && r.state.messageCallbacks == c.messageCallbacks
    ensures c.ready ==> r.state.ready
    ensures r.state.ready != c.ready ==> Classify(data) == Some(SawBootstrap)
    ensures Classify(data).None? || Classify(data) == Some(SawInit) ==> r == Step(c, [])
    ensures Classify(data) == Some(SawBootstrap) ==>
      && r.state.ready
      && |r.effects| == |c.readyCallbacks|
      && forall i :: 0 <= i < |c.readyCallbacks| ==> r.effects[i] == Invoke(ReadyCall(c.readyCallbacks[i]))
    ensures Classify(data).Some? && Classify(data).value.SawMessage? ==>
      && r.state == c
      && |r.effects| == |c.messageCallbacks|
      && forall i :: 0 <= i < |c.messageCallbacks| ==>
           r.effects[i] == Invoke(MessageCall(c.messageCallbacks[i], GetProperty(data, "payload")))
  {
    match Classify(data)
    case Some(SawBootstrap) => Step(c.(ready := true), FireReady(c.readyCallbacks))
    case Some(SawMessage(payload)) => Step(c, FireMessage(c.messageCallbacks, payload))
    case _ => Step(c, [])
  }

  /**
   * `context.onReady(cb)`: when already ready, `cb` runs at once and is not
   * stored; otherwise it is appended and not run.
   */
  function OnReady(c: Context, id: CallbackId): (r: Registration)
    ensures r.state.ready == c.ready && r.state.messageCallbacks == c.messageCallbacks
    ensures r.unsubscribe == ReadyUnsubscriber(id)
    ensures c.ready ==> r.state == c && r.effects == [Invoke(ReadyCall(id))]
    ensures !c.ready ==> r.state.readyCallbacks == c.readyCallbacks + [id] && r.effects == []
  {
    if c.ready then Registration(c, [Invoke(ReadyCall(id))], ReadyUnsubscriber(id))
    else Registration(c.(readyCallbacks := c.readyCallbacks + [id]), [], ReadyUnsubscriber(id))
  }

  /** `context.onMessage(cb)`: appends `cb` at the end and runs nothing. */
  function OnMessage(c: Context, id: CallbackId): (r: Registration)
    ensures r.state.ready == c.ready && r.state.readyCallbacks == c.readyCallbacks
    ensures r.state.messageCallbacks == c.messageCallbacks + [id]
    ensures r.effects == [] && r.unsubscribe == MessageUnsubscriber(id)
  {
    Registration(c.(messageCallbacks := c.messageCallbacks + [id]), [], MessageUnsubscriber(id))
  }

  /**
   * Calling an unsubscribe closure: removes the first occurrence of its
   * callback from its list, keeping the order of the rest; a no-op when the
   * callback is not there. The other list and the ready flag are untouched.
   */
  function Unsubscribe(c: Context, u: Unsubscriber): (r: Context)
    ensures r.ready == c.ready
    ensures u.ReadyUnsubscriber? ==> r.messageCallbacks == c.messageCallbacks
    ensures u.MessageUnsubscriber? ==> r.readyCallbacks == c.readyCallbacks
    ensures u.ReadyUnsubscriber? ==> multiset(r.readyCallbacks) == multiset(c.readyCallbacks) - multiset{u.id}
    ensures u.MessageUnsubscriber? ==> multiset(r.messageCallbacks) == multiset(c.messageCallbacks) - multiset{u.id}
  {
    match u
    case ReadyUnsubscriber(id) => c.(readyCallbacks := RemoveFirst(c.readyCallbacks, id))
    case MessageUnsubscriber(id) => c.(messageCallbacks := RemoveFirst(c.messageCallbacks, id))
  }

  /** `context.chatMessage(text)`: posts one Payload envelope whatever the ready state. */
  function ChatMessage(c: Context, text: string): (r: Step<Context>)
    ensures r.state == c
    ensures Posts(r.effects) == [Payload(text)] && Calls(r.effects) == []
  {
    Step(c, [Post(Payload(text))])
  }

  /** What application code and the parent window can do to the singleton. */
  datatype Event =
    | Deliver(data: Value)
    | RegisterReady(id: CallbackId)
    | RegisterMessage(id: CallbackId)
    | Release(unsubscriber: Unsubscriber)
    | Chat(text: string)

  function Apply(c: Context, e: Event): Step<Context> {
    match e
    case Deliver(data) => Receive(c, data)
    case RegisterReady(id) => var g := OnReady(c, id); Step(g.state, g.effects)
    case RegisterMessage(id) => var g := OnMessage(c, id); Step(g.state, g.effects)
    case Release(u) => Step(Unsubscribe(c, u), [])
    case Chat(text) => ChatMessage(c, text)
  }

  /** A sequence of events applied in order, with the concatenated effect log. */
  function Run(c: Context, events: seq<Event>): Step<Context>
    decreases |events|
  {
    if events == [] then Step(c, [])
    else
      var first := Apply(c, events[0]);
      var rest := Run(first.state, events[1..]);
      Step(rest.state, first.effects + rest.effects)
  }

  predicate IsBootstrapDelivery(e: Event) {
    e.Deliver? && Classify(e.data) == Some(SawBootstrap)
  }

  /** The two callback lists of the context. */
  datatype List = ReadyList | MessageList

  function Stored(c: Context, l: List): seq<CallbackId> {
    match l
    case ReadyList => c.readyCallbacks
    case MessageList => c.messageCallbacks
  }

  /** The closure `onReady` / `onMessage` hands back for callback `id`. */
  function UnsubscriberFor(l: List, id: CallbackId): Unsubscriber {
    match l
    case ReadyList => ReadyUnsubscriber(id)
    case MessageList => MessageUnsubscriber(id)
  }

  /** `call` runs callback `id` as a member of list `l`, with whatever argument. */
  predicate Targets(call: Call, l: List, id: CallbackId) {
    match l
    case ReadyList => call == ReadyCall(id)
    case MessageList => call.MessageCall? && call.id == id
  }

  /** `e` registers callback `id` into list `l`. */
  predicate Registers(e: Event, l: List, id: CallbackId) {
    match l
    case ReadyList => e == RegisterReady(id)
    case MessageList => e == RegisterMessage(id)
  }

  /** Some invocation of callback `id`, as a member of list `l`, appears in the log. */
  ghost predicate Invokes(effects: seq<Effect>, l: List, id: CallbackId) {
    exists i :: 0 <= i < |effects| && effects[i].Invoke? && Targets(effects[i].call, l, id)
  }

  /** The client is ready after a run iff it was before or a `bootstrap` arrived during it. */
  lemma {:induction false} ReadyAfterRun(c: Context, events: seq<Event>)
    ensures Run(c, events).state.ready <==>
      c.ready || exists i :: 0 <= i < |events| && IsBootstrapDelivery(events[i])
    decreases |events|
  {
    if events != [] {
      var tail := events[1..];
      ReadyAfterRun(Apply(c, events[0]).state, tail);
      forall i | 0 <= i < |tail|
        ensures tail[i] == events[i + 1]
      {
      }
      if exists i :: 0 <= i < |events| && IsBootstrapDelivery(events[i]) {
        var i :| 0 <= i < |events| && IsBootstrapDelivery(events[i]);
        if i > 0 {
          assert IsBootstrapDelivery(tail[i - 1]);
        }
      }
    }
  }

  lemma InvokesAppend(a: seq<Effect>, b: seq<Effect>, l: List, id: CallbackId)
    ensures Invokes(a + b, l, id) <==> Invokes(a, l, id) || Invokes(b, l, id)
  {
    if Invokes(a + b, l, id) {
      var k :| 0 <= k < |a + b| && (a + b)[k].Invoke? && Targets((a + b)[k].call, l, id);
      if k >= |a| {
        assert b[k - |a|] == (a + b)[k];
      }
    }
    if Invokes(a, l, id) {
      var k :| 0 <= k < |a| && a[k].Invoke? && Targets(a[k].call, l, id);
      assert (a + b)[k] == a[k];
    }
    if Invokes(b, l, id) {
      var k :| 0 <= k < |b| && b[k].Invoke? && Targets(b[k].call, l, id);
      assert (a + b)[k + |a|] == b[k];
    }
  }

  /** One event that does not register `id` into `l` neither invokes it from `l` nor stores it there. */
  lemma StepKeepsUnregistered(c: Context, e: Event, l: List, id: CallbackId)
    requires id !in Stored(c, l)
    requires !Registers(e, l, id)
    ensures id !in Stored(Apply(c, e).state, l)
    ensures !Invokes(Apply(c, e).effects, l, id)
  {
    var r := Apply(c, e);
    match e
    case Deliver(data) =>
      var env := Classify(data);
      if env == Some(SawBootstrap) {
        assert r.effects == FireReady(c.readyCallbacks);
        forall k | 0 <= k < |r.effects|
          ensures r.effects[k] == Invoke(ReadyCall(c.readyCallbacks[k]))
        {
        }
      } else if env.Some? && env.value.SawMessage? {
        assert r.effects == FireMessage(c.messageCallbacks, env.value.payload);
        forall k | 0 <= k < |r.effects|
          ensures r.effects[k] == Invoke(MessageCall(c.messageCallbacks[k], env.value.payload))
        {
        }
      }
    case RegisterReady(_) =>
    case RegisterMessage(_) =>
    case Release(u) =>
      assert multiset(Stored(r.state, l))[id] <= multiset(Stored(c, l))[id];
    case Chat(_) =>
  }

  /**
   * A callback is only ever invoked from a list while it is stored there: if
   * `id` is not in list `l` and the run never registers it there, the run
   * never invokes it as a member of `l`.
   */
  lemma {:induction false} UnregisteredNeverInvoked(c: Context, events: seq<Event>, l: List, id: CallbackId)
    requires id !in Stored(c, l)
    requires forall i :: 0 <= i < |events| ==> !Registers(events[i], l, id)
    ensures !Invokes(Run(c, events).effects, l, id)
    decreases |events|
  {
    if events != [] {
      var first := Apply(c, events[0]);
      StepKeepsUnregistered(c, events[0], l, id);
      UnregisteredNeverInvoked(first.state, events[1..], l, id);
      InvokesAppend(first.effects, Run(first.state, events[1..]).effects, l, id);
    }
  }

  /**
   * Unsubscribe correctness, for ready and message callbacks alike: once a
   * callback stored once is unsubscribed, no later run that does not
   * register it again ever invokes it from that list.
   */
  lemma NoInvocationAfterUnsubscribe(c: Context, l: List, id: CallbackId, events: seq<Event>)
    requires multiset(Stored(c, l))[id] <= 1
    requires forall i :: 0 <= i < |events| ==> !Registers(events[i], l, id)
    ensures !Invokes(Run(Unsubscribe(c, UnsubscriberFor(l, id)), events).effects, l, id)
  {
    var after := Unsubscribe(c, UnsubscriberFor(l, id));
    assert multiset(Stored(after, l))[id] == 0;
    UnregisteredNeverInvoked(after, events, l, id);
  }

  /**
   * Calling the same unsubscribe closure twice in a row is harmless when its
   * callback was stored once.
   */
  lemma UnsubscribeTwice(c: Context, u: Unsubscriber)
    requires u.ReadyUnsubscriber? ==> multiset(c.readyCallbacks)[u.id] <= 1
    requires u.MessageUnsubscriber? ==> multiset(c.messageCallbacks)[u.id] <= 1
    ensures Unsubscribe(Unsubscribe(c, u), u) == Unsubscribe(c, u)
  {
    var once := Unsubscribe(c, u);
    if u.ReadyUnsubscriber? {
      assert multiset(once.readyCallbacks)[u.id] == 0;
    } else {
      assert multiset(once.messageCallbacks)[u.id] == 0;
    }
  }

  /**
   * Closures remove by reference, not by registration: a closure kept from
   * an earlier, already undone registration removes a later registration of
   * the same callback.
   */
  lemma StaleUnsubscriberRemovesLaterRegistration(c: Context, id: CallbackId)
    requires id !in c.messageCallbacks
    ensures
      var first := OnMessage(c, id);
      var again := OnMessage(Unsubscribe(first.state, first.unsubscribe), id);
      id in again.state.messageCallbacks
      && Unsubscribe(again.state, first.unsubscribe).messageCallbacks == c.messageCallbacks
  {
    var first := OnMessage(c, id);
    var undone := Unsubscribe(first.state, first.unsubscribe);
    assert undone.messageCallbacks == c.messageCallbacks by {
      RemoveLast(c.messageCallbacks, id);
    }
    RemoveLast(c.messageCallbacks, id);
  }

  /** Removing `id` from a list where it occurs only as the last entry gives back the rest. */
  lemma RemoveLast(ids: seq<CallbackId>, id: CallbackId)
    requires id !in ids
    ensures RemoveFirst(ids + [id], id) == ids
  {
    var k := IndexOf(ids + [id], id);
    assert (ids + [id])[|ids|] == id;
    assert k == |ids|;
    assert (ids + [id])[..k] == ids;
  }

  /**
   * A repeated `bootstrap` invokes every stored ready callback again: the
   * ready list is never cleared.
   */
  lemma BootstrapRefires(c: Context, data: Value)
    requires Classify(data) == Some(SawBootstrap)
    ensures
      var first := Receive(c, data);
      var second := Receive(first.state, data);
      second.state == first.state && second.effects == first.effects
      && Calls(first.effects) == seq(|c.readyCallbacks|, i requires 0 <= i < |c.readyCallbacks| => ReadyCall(c.readyCallbacks[i]))
  {
    var first := Receive(c, data);
    CallsOfFireReady(c.readyCallbacks);
  }

  lemma {:induction false} CallsOfFireReady(ids: seq<CallbackId>)
    ensures Calls(FireReady(ids)) == seq(|ids|, i requires 0 <= i < |ids| => ReadyCall(ids[i]))
  {
    if ids != [] {
      CallsOfFireReady(ids[1..]);
      assert FireReady(ids) == [Invoke(ReadyCall(ids[0]))] + FireReady(ids[1..]);
      CallsAppend([Invoke(ReadyCall(ids[0]))], FireReady(ids[1..]));
    }
  }
}
