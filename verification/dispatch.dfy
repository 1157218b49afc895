/**
 * What the adapters do to the outside world, as an ordered log: posting an
 * envelope across the frame boundary, or invoking an application callback.
 * Callbacks are opaque identities (JavaScript compares functions by
 * reference); they cannot reach back into adapter state.
 */
module Dispatch {
  import opened JsValue
  import opened Protocol

  type CallbackId = nat

  /** One callback invocation: a ready callback takes no argument, a message callback takes the payload. */
  datatype Call = ReadyCall(id: CallbackId) | MessageCall(id: CallbackId, arg: Value)

  datatype Effect = Post(message: Message) | Invoke(call: Call)

  /** The state after an operation, and what the operation did, in order. */
  datatype Step<S> = Step(state: S, effects: seq<Effect>)

  /** The envelopes posted, in order: the outbox. */
  function Posts(effects: seq<Effect>): (r: seq<Message>)
    ensures |r| <= |effects|
    ensures forall m :: m in r <==> Post(m) in effects
  {
    if effects == [] then []
    else (if effects[0].Post? then [effects[0].message] else []) + Posts(effects[1..])
  }

  /** The callbacks invoked, in order. */
  function Calls(effects: seq<Effect>): (r: seq<Call>)
    ensures |r| <= |effects|
    ensures forall c :: c in r <==> Invoke(c) in effects
  {
    if effects == [] then []
    else (if effects[0].Invoke? then [effects[0].call] else []) + Calls(effects[1..])
  }

  /** `forEach((cb) => cb())`: each stored ready callback once, in list order. */
  function FireReady(ids: seq<CallbackId>): (r: seq<Effect>)
    ensures |r| == |ids|
    ensures forall i :: 0 <= i < |ids| ==> r[i] == Invoke(ReadyCall(ids[i]))
  {
    if ids == [] then [] else [Invoke(ReadyCall(ids[0]))] + FireReady(ids[1..])
  }

  /** `forEach((cb) => cb(payload))`: each stored message callback once, in list order. */
  function FireMessage(ids: seq<CallbackId>, payload: Value): (r: seq<Effect>)
    ensures |r| == |ids|
    ensures forall i :: 0 <= i < |ids| ==> r[i] == Invoke(MessageCall(ids[i], payload))
  {
    if ids == [] then [] else [Invoke(MessageCall(ids[0], payload))] + FireMessage(ids[1..], payload)
  }

  /** `Array.prototype.indexOf`: the first position holding `id`, or -1. */
  function IndexOf(ids: seq<CallbackId>, id: CallbackId): (k: int)
    ensures -1 <= k < |ids|
    ensures k == -1 <==> id !in ids
    ensures 0 <= k < |ids| ==> ids[k] == id && forall j :: 0 <= j < k ==> ids[j] != id
  {
    if ids == [] then -1
    else if ids[0] == id then 0
    else
      var j := IndexOf(ids[1..], id);
      if j == -1 then -1 else j + 1
  }

  /**
   * The body of an unsubscribe closure: `indexOf` then `splice(index, 1)`
   * when found. Removes the first occurrence of `id` and keeps every other
   * entry in its relative order; a no-op when `id` is absent.
   */
  function RemoveFirst(ids: seq<CallbackId>, id: CallbackId): (r: seq<CallbackId>)
    ensures id !in ids ==> r == ids
    ensures id in ids ==>
      exists j :: 0 <= j < |ids| && ids[j] == id && id !in ids[..j] && r == ids[..j] + ids[j + 1..]
    ensures multiset(r) == multiset(ids) - multiset{id}
  {
    var k := IndexOf(ids, id);
    if k > -1 then
      assert ids == ids[..k] + [ids[k]] + ids[k + 1..];
      assert id !in ids[..k];
      ids[..k] + ids[k + 1..]
    else ids
  }

  /** The outbox of two consecutive operations is the first's followed by the second's. */
  lemma {:induction false} PostsAppend(a: seq<Effect>, b: seq<Effect>)
    ensures Posts(a + b) == Posts(a) + Posts(b)
  {
    if a != [] {
      assert (a + b)[1..] == a[1..] + b;
      PostsAppend(a[1..], b);
    } else {
      assert a + b == b;
    }
  }

  /** The invocation log of two consecutive operations is the first's followed by the second's. */
  lemma {:induction false} CallsAppend(a: seq<Effect>, b: seq<Effect>)
    ensures Calls(a + b) == Calls(a) + Calls(b)
  {
    if a != [] {
      assert (a + b)[1..] == a[1..] + b;
      CallsAppend(a[1..], b);
    } else {
      assert a + b == b;
    }
  }
}
