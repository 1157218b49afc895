/**
 * The two adapters wired together: whatever one side posts reaches the
 * other side's window listener as the encoded envelope object.
 */
module Session {
  import opened Wrappers
  import opened JsValue
  import opened Protocol
  import opened Inbound
  import opened Dispatch
  import Platform
  import ClientContext

  /** Every envelope an adapter posts passes the other side's filter and takes its own branch. */
  lemma PostedEnvelopesRoute(m: Message)
    ensures Classify(Encode(m)) == Some(Lift(m))
  {
    ParseEncode(m);
    ClassifyAgreesWithParse(Encode(m), m);
  }

  /** Hands each posted envelope, in order, to the client's listener. */
  function DeliverToClient(c: ClientContext.Context, posts: seq<Message>): Step<ClientContext.Context>
    decreases |posts|
  {
    if posts == [] then Step(c, [])
    else
      var first := ClientContext.Receive(c, Encode(posts[0]));
      var rest := DeliverToClient(first.state, posts[1..]);
      Step(rest.state, first.effects + rest.effects)
  }

  /** Hands each posted envelope, in order, to the host's listener. */
  function DeliverToHost(h: Platform.Container, posts: seq<Message>): Step<Platform.Container>
    decreases |posts|
  {
    if posts == [] then Step(h, [])
    else
      var first := Platform.Receive(h, Encode(posts[0]));
      var rest := DeliverToHost(first.state, posts[1..]);
      Step(rest.state, first.effects + rest.effects)
  }

  /**
   * The end-to-end exchange: the client loads and posts `init`; the host
   * answers `bootstrap` and fires its ready prop; the client fires its
   * pending ready callback; the host's `sendMessage(hi)` reaches the client's
   * message callback; the client's `chatMessage(yo)` reaches the host's
   * message prop.
   */
  lemma HandshakeThenChat(hostReady: CallbackId, hostMessage: CallbackId,
                          appReady: CallbackId, appMessage: CallbackId, hi: string, yo: string)
    ensures
      var loaded := ClientContext.Load();
      var c0 := ClientContext.OnMessage(ClientContext.OnReady(loaded.state, appReady).state, appMessage).state;
      var h0 := Platform.Mount(Some(hostReady), Some(hostMessage));
      var h1 := DeliverToHost(h0, Posts(loaded.effects));
      var c1 := DeliverToClient(c0, Posts(h1.effects));
      var h2 := Platform.SendMessage(h1.state, hi);
      var c2 := DeliverToClient(c1.state, Posts(h2.effects));
      var chat := ClientContext.ChatMessage(c2.state, yo);
      var h3 := DeliverToHost(h2.state, Posts(chat.effects));
      && Calls(h1.effects) == [ReadyCall(hostReady)]
      && Posts(h1.effects) == [Bootstrap]
      && Calls(c1.effects) == [ReadyCall(appReady)]
      && Posts(h2.effects) == [Payload(hi)]
      && Calls(c2.effects) == [MessageCall(appMessage, Str(hi))]
      && Calls(h3.effects) == [MessageCall(hostMessage, Str(yo))]
      && h3.state.ready && c2.state.ready
  {
    var loaded := ClientContext.Load();
    var c0 := ClientContext.OnMessage(ClientContext.OnReady(loaded.state, appReady).state, appMessage).state;
    assert c0 == ClientContext.Context(false, [appReady], [appMessage]);
    var h0 := Platform.Mount(Some(hostReady), Some(hostMessage));
    assert Posts(loaded.effects) == [Init];
    var h1 := DeliverToHost(h0, [Init]);
    HostAnswersInit(h0);
    var c1 := DeliverToClient(c0, [Bootstrap]);
    ClientAcceptsBootstrap(c0);
    var h2 := Platform.SendMessage(h1.state, hi);
    var c2 := DeliverToClient(c1.state, [Payload(hi)]);
    ClientAcceptsPayload(c1.state, hi);
    var chat := ClientContext.ChatMessage(c2.state, yo);
    var h3 := DeliverToHost(h2.state, [Payload(yo)]);
    HostAcceptsPayload(h2.state, yo);
  }

  lemma HostAnswersInit(h: Platform.Container)
    requires h.mounted && h.onReady.Some?
    ensures DeliverToHost(h, [Init]).effects == [Post(Bootstrap), Invoke(ReadyCall(h.onReady.value))]
    ensures DeliverToHost(h, [Init]).state == h.(ready := true)
  {
    PostedEnvelopesRoute(Init);
    DeliverOneToHost(h, Init);
  }

  lemma HostAcceptsPayload(h: Platform.Container, text: string)
    requires h.mounted && h.onMessage.Some?
    ensures DeliverToHost(h, [Payload(text)]).effects == [Invoke(MessageCall(h.onMessage.value, Str(text)))]
    ensures DeliverToHost(h, [Payload(text)]).state == h
  {
    PostedEnvelopesRoute(Payload(text));
    DeliverOneToHost(h, Payload(text));
  }

  lemma ClientAcceptsBootstrap(c: ClientContext.Context)
    ensures DeliverToClient(c, [Bootstrap]).effects == FireReady(c.readyCallbacks)
    ensures DeliverToClient(c, [Bootstrap]).state == c.(ready := true)
  {
    PostedEnvelopesRoute(Bootstrap);
    DeliverOneToClient(c, Bootstrap);
  }

  lemma ClientAcceptsPayload(c: ClientContext.Context, text: string)
    ensures DeliverToClient(c, [Payload(text)]).effects == FireMessage(c.messageCallbacks, Str(text))
    ensures DeliverToClient(c, [Payload(text)]).state == c
  {
    PostedEnvelopesRoute(Payload(text));
    DeliverOneToClient(c, Payload(text));
  }

  lemma DeliverOneToHost(h: Platform.Container, m: Message)
    ensures DeliverToHost(h, [m]) == Platform.Receive(h, Encode(m))
  {
    var r := Platform.Receive(h, Encode(m));
    assert r.effects + [] == r.effects;
  }

  lemma DeliverOneToClient(c: ClientContext.Context, m: Message)
    ensures DeliverToClient(c, [m]) == ClientContext.Receive(c, Encode(m))
  {
    var r := ClientContext.Receive(c, Encode(m));
    assert r.effects + [] == r.effects;
  }
}
