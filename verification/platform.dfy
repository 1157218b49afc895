/**
 * The host side: the `Container` component that embeds the app's iframe.
 *
 * `mounted` stands for the component being on the page: while it holds, the
 * window `message` listener installed by the effect is attached and the
 * iframe (the target of every post) exists. Unmounting runs the effect's
 * cleanup and drops the iframe, after which posts through the optional
 * chain `iframeRef.current?.contentWindow?` go nowhere.
 */
module Platform {
  import opened Wrappers
  import opened JsValue
  import opened Protocol
  import opened Inbound
  import opened Dispatch

  /** `isReadyRef`, the mount state, and the optional `onReady` / `onMessage` props. */
  datatype Container = Container(
    ready: bool,
    mounted: bool,
    onReady: Option<CallbackId>,
    onMessage: Option<CallbackId>)

  /** Invokes an optional ready prop, `onReady?.()`. */
  function NotifyReady(cb: Option<CallbackId>): seq<Effect> {
    if cb.Some? then [Invoke(ReadyCall(cb.value))] else []
  }

  /** Invokes an optional message prop, `onMessage?.(payload)`. */
  function NotifyMessage(cb: Option<CallbackId>, payload: Value): seq<Effect> {
    if cb.Some? then [Invoke(MessageCall(cb.value, payload))] else []
  }

  /** First render and effect: not ready, listener attached. */
  function Mount(onReady: Option<CallbackId>, onMessage: Option<CallbackId>): (c: Container)
    ensures !c.ready && c.mounted
    ensures c.onReady == onReady && c.onMessage == onMessage
  {
    Container(false, true, onReady, onMessage)
  }

  /** The effect cleanup (`removeEventListener`) together with the iframe leaving the page. */
  function Unmount(c: Container): (r: Container)
    ensures !r.mounted
    ensures r.ready == c.ready && r.onReady == c.onReady && r.onMessage == c.onMessage
  {
    c.(mounted := false)
  }

  /**
   * The imperative handle's `sendMessage`: gated on readiness. Before the
   * handshake it is a silent no-op (nothing queued, nothing thrown); after
   * it, exactly one Payload envelope is posted to the frame.
   */
  function SendMessage(c: Container, text: string): (r: Step<Container>)
    ensures r.state == c
    ensures Calls(r.effects) == []
    ensures Posts(r.effects) == (if c.ready && c.mounted then [Payload(text)] else [])
  {
    if c.ready && c.mounted then Step(c, [Post(Payload(text))]) else Step(c, [])
  }

  /**
   * `handleMessage`. On `init`: post Bootstrap, then set ready, then invoke
   * `onReady` (in that order; a repeated `init` does all three again). On
   * `message`: invoke `onMessage` with whatever `data.payload` holds, ready or
   * not. Everything else, `bootstrap` included, falls through the switch.
   */
  function Receive(c: Container, data: Value): (r: Step<Container>)
    ensures r.state.mounted == c.mounted && r.state.onReady == c.onReady && r.state.onMessage == c.onMessage
    ensures c.ready ==> r.state.ready
    ensures r.state.ready != c.ready ==> c.mounted && Classify(data) == Some(SawInit)
    ensures !c.mounted || Classify(data).None? || Classify(data) == Some(SawBootstrap) ==> r == Step(c, [])
    ensures c.mounted && Classify(data) == Some(SawInit) ==>
      && r.state.ready
      && |r.effects| >= 1 && r.effects[0] == Post(Bootstrap)
      && Posts(r.effects) == [Bootstrap]
      && Calls(r.effects) == (if c.onReady.Some? then [ReadyCall(c.onReady.value)] else [])
    ensures c.mounted && Classify(data).Some? && Classify(data).value.SawMessage? ==>
      && r.state == c
      && Posts(r.effects) == []
      && Calls(r.effects) == (if c.onMessage.Some? then [MessageCall(c.onMessage.value, GetProperty(data, "payload"))] else [])
  {
    if !c.mounted then Step(c, [])
    else
      match Classify(data)
      case Some(SawInit) => Step(c.(ready := true), [Post(Bootstrap)] + NotifyReady(c.onReady))
      case Some(SawMessage(payload)) => Step(c, NotifyMessage(c.onMessage, payload))
      case _ => Step(c, [])
  }

  /** What can happen to a mounted container: an inbound event, a send, or unmounting. */
  datatype Event = Deliver(data: Value) | SendText(text: string) | Teardown

  function Apply(c: Container, e: Event): Step<Container> {
    match e
    case Deliver(data) => Receive(c, data)
    case SendText(text) => SendMessage(c, text)
    case Teardown => Step(Unmount(c), [])
  }

  /** A sequence of events applied in order, with the concatenated effect log. */
  function Run(c: Container, events: seq<Event>): Step<Container>
    decreases |events|
  {
    if events == [] then Step(c, [])
    else
      var first := Apply(c, events[0]);
      var rest := Run(first.state, events[1..]);
      Step(rest.state, first.effects + rest.effects)
  }

  predicate IsInitDelivery(e: Event) {
    e.Deliver? && Classify(e.data) == Some(SawInit)
  }

  /** Some `init` arrived while the listener was still attached. */
  ghost predicate InitBeforeTeardown(events: seq<Event>) {
    exists i :: 0 <= i < |events| && IsInitDelivery(events[i]) && Teardown !in events[..i]
  }

  /** The number of `init` events that arrived before the first teardown. */
  function InitsBeforeTeardown(events: seq<Event>): nat {
    if events == [] || events[0].Teardown? then 0
    else (if IsInitDelivery(events[0]) then 1 else 0) + InitsBeforeTeardown(events[1..])
  }

  /** After the cleanup, inbound events and sends have no effect at all. */
  lemma {:induction false} UnmountedIsInert(c: Container, events: seq<Event>)
    requires !c.mounted
    ensures Run(c, events) == Step(c, [])
    decreases |events|
  {
    if events != [] {
      UnmountedIsInert(Apply(c, events[0]).state, events[1..]);
    }
  }

  /** Detaching twice is the same as detaching once. */
  lemma UnmountIdempotent(c: Container)
    ensures Unmount(Unmount(c)) == Unmount(c)
  {
  }

  /** The container stays mounted exactly as long as no teardown has happened. */
  lemma {:induction false} MountedAfterRun(c: Container, events: seq<Event>)
    ensures Run(c, events).state.mounted <==> c.mounted && Teardown !in events
    decreases |events|
  {
    if events != [] {
      MountedAfterRun(Apply(c, events[0]).state, events[1..]);
      assert events == [events[0]] + events[1..];
    }
  }

  /**
   * Readiness is reached exactly by an `init` arriving while attached, and
   * never lost: a mounted container is ready after a run iff it was ready
   * before or an `init` arrived before any teardown.
   */
  lemma {:induction false} ReadyAfterRun(c: Container, events: seq<Event>)
    requires c.mounted
    ensures Run(c, events).state.ready <==> c.ready || InitBeforeTeardown(events)
    decreases |events|
  {
    if events == [] {
      return;
    }
    var next := Apply(c, events[0]).state;
    InitBeforeTeardownUnfold(events);
    ApplyReady(c, events[0]);
    if events[0].Teardown? {
      UnmountedIsInert(next, events[1..]);
    } else {
      ReadyAfterRun(next, events[1..]);
    }
  }

  /** One event on a mounted container: ready afterwards iff ready before or it is an `init`. */
  lemma ApplyReady(c: Container, e: Event)
    requires c.mounted
    ensures Apply(c, e).state.ready <==> c.ready || IsInitDelivery(e)
    ensures Apply(c, e).state.mounted <==> !e.Teardown?
  {
  }

  /** `InitBeforeTeardown` looks at the first event, then at the rest unless it was a teardown. */
  lemma InitBeforeTeardownUnfold(events: seq<Event>)
    requires events != []
    ensures InitBeforeTeardown(events) <==>
      IsInitDelivery(events[0]) || (!events[0].Teardown? && InitBeforeTeardown(events[1..]))
  {
    var e := events[0];
    var tail := events[1..];
    if IsInitDelivery(e) {
      assert Teardown !in events[..0];
    } else if e.Teardown? {
      forall i | 0 <= i < |events| && IsInitDelivery(events[i])
        ensures Teardown in events[..i]
      {
        assert events[..i][0] == Teardown;
      }
    } else {
      if InitBeforeTeardown(tail) {
        var i :| 0 <= i < |tail| && IsInitDelivery(tail[i]) && Teardown !in tail[..i];
        assert events[..i + 1] == [e] + tail[..i];
        assert events[i + 1] == tail[i];
      }
      if InitBeforeTeardown(events) {
        var i :| 0 <= i < |events| && IsInitDelivery(events[i]) && Teardown !in events[..i];
        assert events[..i] == [e] + tail[..i - 1];
        assert tail[i - 1] == events[i];
      }
    }
  }

  /** Ready is monotone over any run: the only assignment sets it to true. */
  lemma {:induction false} ReadyMonotone(c: Container, events: seq<Event>)
    requires c.ready
    ensures Run(c, events).state.ready
    decreases |events|
  {
    if events != [] {
      ReadyMonotone(Apply(c, events[0]).state, events[1..]);
    }
  }

  /**
   * Handshake-gated sending over a whole session: after mounting and a run
   * of events, `sendMessage(text)` posts exactly `Payload(text)` if an `init`
   * has arrived and the container is still mounted, and nothing otherwise.
   */
  lemma SendGatedByHandshake(onReady: Option<CallbackId>, onMessage: Option<CallbackId>, events: seq<Event>, text: string)
    ensures
      var c := Run(Mount(onReady, onMessage), events).state;
      Posts(SendMessage(c, text).effects)
        == if Teardown !in events && InitBeforeTeardown(events) then [Payload(text)] else []
  {
    ReadyAfterRun(Mount(onReady, onMessage), events);
    MountedAfterRun(Mount(onReady, onMessage), events);
  }

  /**
   * `init` is not deduplicated: over any run of a mounted container, one
   * Bootstrap is posted for every `init` that arrived before teardown.
   */
  lemma {:induction false} BootstrapPerInit(c: Container, events: seq<Event>)
    requires c.mounted
    ensures multiset(Posts(Run(c, events).effects))[Bootstrap] == InitsBeforeTeardown(events)
    decreases |events|
  {
    if events == [] {
      return;
    }
    var first := Apply(c, events[0]);
    var rest := Run(first.state, events[1..]);
    PostsAppend(first.effects, rest.effects);
    if events[0].Teardown? {
      UnmountedIsInert(first.state, events[1..]);
    } else {
      BootstrapPerInit(first.state, events[1..]);
      match events[0]
      case Deliver(data) =>
        if Classify(data) == Some(SawInit) {
          assert Posts(first.effects) == [Bootstrap];
        } else {
          assert Posts(first.effects) == [];
        }
      case SendText(text) =>
        assert Bootstrap !in Posts(first.effects);
    }
  }

  /**
   * Likewise `onReady` fires once per `init` that arrived before teardown,
   * even when the container was already ready.
   */
  lemma {:induction false} ReadyCallbackPerInit(c: Container, id: CallbackId, events: seq<Event>)
    requires c.mounted && c.onReady == Some(id)
    ensures multiset(Calls(Run(c, events).effects))[ReadyCall(id)] == InitsBeforeTeardown(events)
    decreases |events|
  {
    if events == [] {
      return;
    }
    var first := Apply(c, events[0]);
    var rest := Run(first.state, events[1..]);
    CallsAppend(first.effects, rest.effects);
    if events[0].Teardown? {
      UnmountedIsInert(first.state, events[1..]);
    } else {
      ReadyCallbackPerInit(first.state, id, events[1..]);
      match events[0]
      case Deliver(data) =>
        if Classify(data) == Some(SawInit) {
          assert Calls(first.effects) == [ReadyCall(id)];
        } else {
          assert ReadyCall(id) !in Calls(first.effects);
        }
      case SendText(text) =>
        assert Calls(first.effects) == [];
    }
  }

  /** Validated envelopes, as the host handles them: `message` is forwarded whether or not ready. */
  lemma ReceiveEnvelope(c: Container, m: Message)
    requires c.mounted
    ensures m.Init? ==> Receive(c, Encode(m)) == Step(c.(ready := true), [Post(Bootstrap)] + NotifyReady(c.onReady))
    ensures m.Bootstrap? ==> Receive(c, Encode(m)) == Step(c, [])
    ensures m.Payload? ==> Receive(c, Encode(m)) == Step(c, NotifyMessage(c.onMessage, Str(m.payload)))
  {
  }

  /**
   * The guard lets arrays through: `Object.assign([], {type: "init"})` is
   * rejected by the validator, yet the host answers it like a real `init`.
   */
  lemma ArrayTypedInitIsAnswered(c: Container)
    requires c.mounted
    ensures
      var data := Arr([], map["type" := Str("init")]);
      && ParseMessage(data) == None
      && Receive(c, data).state.ready
      && Posts(Receive(c, data).effects) == [Bootstrap]
  {
  }
}
