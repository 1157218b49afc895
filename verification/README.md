# Shell/app handshake protocol, modelled in Dafny

This project models the messaging layer of a demo monorepo. In it, an outer "shell" page embeds an app in an iframe. The two pages talk through the browser's window messaging channel. The model has three parts:

- **The envelope validator** (`packages/protocol/src/messages.ts`). This is a union of three object schemas: `{type: "init"}`, `{type: "bootstrap"}` and `{type: "message", payload: string}`. `parseMessage` turns an untrusted value into one of those envelopes, or into `null`.
- **The host adapter**, the `Container` component (`packages/platform/src/Container.tsx`). It keeps a private ready flag. On `init` it answers `bootstrap`, becomes ready and calls `onReady`. On `message` it forwards `data.payload` to `onMessage`. It drops `sendMessage` until it is ready.
- **The client adapter**, the `context` singleton (`packages/client/src/context.ts`). It posts `init` when loaded. It keeps a ready flag and two ordered callback lists. It returns unsubscribe closures and sends chat messages without any gate.

Every operation is a pure function over immutable state. Each returns a `Step(state, effects)`. `effects` is the ordered log of what the operation did to the outside world:
- `Post(m)`: an envelope posted across the frame boundary. The posts in a log are the outbox.
- `Invoke(call)`: an application callback run.

Callbacks are opaque identities, compared the way JavaScript compares function references.

Modules, one file each:

| file | module | models |
|---|---|---|
| `wrappers.dfy` | `Wrappers` | `Option`, used for `null` and optional props |
| `js_value.dfy` | `JsValue` | structured-cloned event data (primitives, arrays with named keys, plain objects): truthiness, `typeof`, `in`, property reads |
| `protocol.dfy` | `Protocol` | `Message`, its object encoding, `parseMessage` |
| `inbound.dfy` | `Inbound` | the shallow guard and `switch (data.type)` that both adapters share |
| `dispatch.dfy` | `Dispatch` | callback ids, the effect log, `forEach` firing, `indexOf` + `splice` |
| `platform.dfy` | `Platform` | the host `Container` |
| `client_context.dfy` | `ClientContext` | the client `context` |
| `session.dfy` | `Session` | both adapters wired together, end to end |

## Behaviours kept as written

- **No validator on receive.** Neither adapter calls `parseMessage`. Both accept any truthy value of `typeof` "object" that has a `type` key. That includes an array carrying a named `type` key, which `parseMessage` always rejects. The `message` branch forwards `data.payload` unchecked, so a callback can receive `undefined` or a non-string.
  - `Inbound.ClassifyAgreesWithParse` shows that on non-arrays the guard and the validator agree on every envelope the validator accepts.
  - `Inbound.ClassifyWeakerThanParse` and `Inbound.ClassifyExtrasAreReal` show exactly what else the guard lets through: arrays typed with one of the three literals, and `message` events whose payload is not a string.
- **Every `init` is answered.** The host answers every `init` with another `bootstrap` and calls `onReady` again (`Platform.BootstrapPerInit`, `Platform.ReadyCallbackPerInit`).
- **The ready list is never cleared.** The client keeps its ready callbacks after they fire, so a repeated `bootstrap` fires them all again (`ClientContext.BootstrapRefires`).
- **Only the host gates sending.** The client's `chatMessage` posts whatever the ready state. The host's `sendMessage` posts only once ready.
- **Unsubscribe removes by reference.** A closure removes the first stored copy of its callback, whichever registration stored it (`ClientContext.StaleUnsubscriberRemovesLaterRegistration`).

## Model

| member | source | states |
|---|---|---|
| `Protocol.ParseMessage` | packages/protocol/src/messages.ts:31-34 | Total validator: every result is an envelope the input conforms to. It returns `null` exactly when the input conforms to none of the three object schemas. |
| `Protocol.ConformsUnique` | packages/protocol/src/messages.ts:18-22 | The three schemas are disjoint: no value conforms to two different envelopes, so the order of the union does not matter. |
| `Protocol.ParseMessageExact` | packages/protocol/src/messages.ts:18-34 | `parseMessage(v)` is `m` if and only if `v` is a non-array object holding every key of `m`'s shape with `m`'s values. |
| `Protocol.ParseEncode` | packages/protocol/src/messages.ts:18-28 | Round trip: the object a sender posts for any envelope validates back to that envelope. |
| `Protocol.ParseIgnoresExtraKeys` | packages/protocol/src/messages.ts:4-15 | Object schemas strip unknown keys: adding keys outside an envelope's shape does not change the result. |
| `Protocol.ParseInit` | packages/protocol/src/messages.ts:4-6 | An object whose `type` is exactly "init" is the Init envelope, whatever else it holds. |
| `Protocol.ParseBootstrap` | packages/protocol/src/messages.ts:8-10 | An object whose `type` is exactly "bootstrap" is the Bootstrap envelope. |
| `Protocol.ParseMessageEnvelope` | packages/protocol/src/messages.ts:12-15 | A `type: "message"` object is accepted if and only if `payload` is present and is a string. The empty string is accepted, and the envelope carries that string. |
| `Protocol.ParseRejects` | packages/protocol/src/messages.ts:18-22 | Non-objects (arrays included), objects without `type`, and objects whose `type` is none of the three literals all validate to `null`. |
| `Inbound.PassesGuard` | packages/platform/src/Container.tsx:46 | The guard (truthy, `typeof` "object", has `type`) holds exactly for plain objects and arrays that have an own `type` key. |
| `Inbound.Classify` | packages/client/src/context.ts:18-28 | Guard plus switch, for objects and arrays alike: routes to the init, bootstrap or message branch exactly when `type` strictly equals that literal. The message branch carries `data.payload`, or `undefined` when it is absent. Everything else is ignored. |
| `Inbound.ClassifyAgreesWithParse` | packages/platform/src/Container.tsx:46-57 | A value validates to `m` if and only if it is not an array and the adapters' filter routes it to `m`'s branch with `m`'s payload. |
| `Inbound.ClassifyWeakerThanParse` | packages/platform/src/Container.tsx:46-57 | Whatever the filter accepts and the validator rejects is either an array, or a `message` event whose payload is not a string. |
| `Inbound.MissingPayloadIsForwarded` | packages/client/src/context.ts:25-27 | Witness: `{type: "message"}` is rejected by the validator, yet it reaches the message branch with payload `undefined`. |
| `Inbound.ClassifyExtrasAreReal` | packages/client/src/context.ts:18-27 | Conversely, an array typed with any of the three literals, and a `message` object whose payload is missing or not a string, are both rejected by the validator and routed by the filter. |
| `Inbound.ArrayTypedInitIsRouted` | packages/platform/src/Container.tsx:46-49 | Witness: `Object.assign([], {type: "init"})` is rejected by the validator, yet it reaches the init branch. |
| `Dispatch.IndexOf` | packages/client/src/context.ts:46 | `indexOf` gives the first position holding the callback, or -1 exactly when it is absent. |
| `Dispatch.RemoveFirst` | packages/client/src/context.ts:45-50 | `indexOf` + `splice(i, 1)` removes exactly the first occurrence and keeps the others in order. It is a no-op when the callback is absent, and the multiset loses one copy. |
| `Dispatch.FireReady` | packages/client/src/context.ts:23 | `forEach` calls each stored ready callback exactly once, in list order. |
| `Dispatch.FireMessage` | packages/client/src/context.ts:26 | `forEach` calls each message callback exactly once, in list order, with the same payload. |
| `Platform.Mount` | packages/platform/src/Container.tsx:25-61 | A freshly mounted container is not ready, is listening, and keeps the props it was given. |
| `Platform.Unmount` | packages/platform/src/Container.tsx:62 | Cleanup detaches the container and changes nothing else. |
| `Platform.SendMessage` | packages/platform/src/Container.tsx:34-38 | Before ready, nothing is posted. After ready, exactly one `Payload(text)` is posted. No callback runs and the state does not change. |
| `Platform.Receive` | packages/platform/src/Container.tsx:44-59 | Malformed data, `bootstrap`, or a detached container: nothing happens. `init`: Bootstrap is posted first, ready becomes true, `onReady` (if given) is called. `message`: `onMessage` gets `data.payload` whether ready or not. Ready never reverts. |
| `Platform.UnmountedIsInert` | packages/platform/src/Container.tsx:61-62 | After cleanup, no event sequence posts, invokes or changes anything. |
| `Platform.UnmountIdempotent` | packages/platform/src/Container.tsx:62 | Detaching twice is the same as detaching once. |
| `Platform.MountedAfterRun` | packages/platform/src/Container.tsx:61-62 | The container stays attached exactly as long as no teardown has happened. |
| `Platform.ReadyAfterRun` | packages/platform/src/Container.tsx:44-54 | A mounted container is ready after a run if and only if it was ready before, or an `init` arrived before any teardown. |
| `Platform.ReadyMonotone` | packages/platform/src/Container.tsx:52 | Once ready, the container stays ready over any run. |
| `Platform.SendGatedByHandshake` | packages/platform/src/Container.tsx:34-54 | After mounting and any run of events, `sendMessage` posts exactly `Payload(text)` if an `init` has arrived and the container is still mounted. Otherwise it posts nothing. |
| `Platform.BootstrapPerInit` | packages/platform/src/Container.tsx:49-54 | `init` is not deduplicated: a run posts one Bootstrap per `init` that arrived before teardown. |
| `Platform.ReadyCallbackPerInit` | packages/platform/src/Container.tsx:49-53 | `onReady` is called once per `init` that arrived before teardown, even when the container was already ready. |
| `Platform.ReceiveEnvelope` | packages/platform/src/Container.tsx:48-58 | The host's reaction to each well-formed envelope: it answers Init, ignores Bootstrap, and forwards Payload text. |
| `Platform.ArrayTypedInitIsAnswered` | packages/platform/src/Container.tsx:46-53 | The host answers an array typed `init` like a real `init`: it posts Bootstrap and becomes ready, though the validator rejects the array. |
| `ClientContext.Load` | packages/client/src/context.ts:6-32 | At module load the client is not ready and has no callbacks. Exactly one Init is posted and nothing is invoked. |
| `ClientContext.Receive` | packages/client/src/context.ts:16-29 | `bootstrap`: ready becomes true and every stored ready callback fires once, in registration order; the list is kept. `message`: every message callback fires once, in order, with `data.payload`, whether ready or not. `init` and malformed data: no effect. |
| `ClientContext.OnReady` | packages/client/src/context.ts:39-51 | When ready, the callback fires at once and is not stored. When not ready, it is appended and does not fire. The returned closure unsubscribes that callback. |
| `ClientContext.OnMessage` | packages/client/src/context.ts:57-65 | Appends the callback at the end, fires nothing, and returns its unsubscribe closure. |
| `ClientContext.Unsubscribe` | packages/client/src/context.ts:45-64 | A closure removes one copy of its callback from its own list only. The ready flag and the other list are unchanged. |
| `ClientContext.ChatMessage` | packages/client/src/context.ts:70-72 | Posts exactly one `Payload(text)` whatever the ready state, and changes nothing else. |
| `ClientContext.ReadyAfterRun` | packages/client/src/context.ts:21-22 | The client is ready after a run if and only if it was ready before, or a `bootstrap` arrived during the run. |
| `ClientContext.UnregisteredNeverInvoked` | packages/client/src/context.ts:20-27 | A ready or message callback that is not stored in its list, and that the run never registers there, is never invoked from that list. |
| `ClientContext.NoInvocationAfterUnsubscribe` | packages/client/src/context.ts:45-64 | For ready and message callbacks alike: once a callback stored once is unsubscribed, it is never invoked from that list again unless it is registered again. |
| `ClientContext.UnsubscribeTwice` | packages/client/src/context.ts:59-64 | Calling the same unsubscribe closure twice in a row is harmless when its callback was stored once. |
| `ClientContext.StaleUnsubscriberRemovesLaterRegistration` | packages/client/src/context.ts:57-64 | A closure from an earlier, already undone registration removes a later registration of the same callback, because removal is by reference. |
| `ClientContext.BootstrapRefires` | packages/client/src/context.ts:21-24 | A second `bootstrap` fires every stored ready callback again, in order, because the list is never cleared. |
| `Session.PostedEnvelopesRoute` | packages/client/src/context.ts:18-28 | Every envelope either side posts passes the other side's filter and takes its own branch. |
| `Session.HandshakeThenChat` | packages/client/src/context.ts:16-32 | End to end: the client posts init. The host answers bootstrap and fires its ready prop. The client fires its pending ready callback. The host's send reaches the client's message callback, and the client's chat message reaches the host's message prop. |

## Left out

- Transport: `postMessage`, `addEventListener`, the `"*"` target origin, `window.parent` and the iframe's `contentWindow`. Posts are entries in the effect log, and the other side's listener receives their object encoding.
- React mechanics: `forwardRef`, `useImperativeHandle`, `useCallback`, refs, and re-running the effect when the `onReady` / `onMessage` props change. A container's props are fixed at mount.
- Platform.Mount: the window between the first render and the effect is not modelled. `mounted` stands for the listener being attached and the iframe existing, together.
- Platform.Receive: the ready flag is set before `onReady` runs, but callbacks cannot read adapter state in this model, so only "Bootstrap is posted before `onReady` is invoked" is stated.
- Validator library internals. Only the observable behaviour of the object and union schemas is modelled: non-null, non-array objects only (primitives and arrays rejected), declared keys read as properties and checked, unknown keys stripped. Error reporting is not modelled.
- Re-entrant callbacks that subscribe, unsubscribe or send while a `forEach` dispatch runs. Array mutation during iteration has subtle semantics. Callbacks are opaque ids.
- JavaScript numbers are integers here. NaN, negative zero and fractions are not represented. Only truthiness reaches the protocol.
- JsValue.HasProperty: array index keys are not modelled. An index key is a canonical decimal string, and the adapters only ask for `type` and `payload`, which are not index keys. Named array keys are modelled.
- Protocol.ParseMessage: cloneable non-array objects other than plain objects are not represented. A cloned Blob or File inherits a `type` property, so one created with type "init" or "bootstrap" is accepted by the real validator as that envelope. The model cannot express that input.
- JsValue.Str: strings are sequences of Unicode scalar values. JavaScript strings, and so `payload`, may hold lone surrogates, which the model cannot represent. No behaviour depends on string contents beyond equality with ASCII literals.
- Inbound.PassesGuard: cloneable values other than primitives, arrays and plain objects are not represented. These include Date, RegExp, Map, Set, ArrayBuffer, boxed primitives, Blob and File. A cloned Blob or File inherits a `type` property, so it passes the guard in the real program. The model cannot express that input.
- Inbound.Classify: the same gap. A Blob or File whose inherited `type` equals one of the three literals would be routed in the real program.
- Callbacks are assumed to return normally. In the real program a throwing callback changes things:
  - it aborts the `forEach` dispatch, so the later callbacks in the list do not run;
  - a throwing host `onReady` still leaves Bootstrap posted and ready set;
  - a callback that throws when `onReady` runs it at once means no unsubscribe closure is returned.
- Dispatch.FireReady: the "each stored callback exactly once, in order" promise assumes no callback throws.
- Dispatch.FireMessage: the same assumption.
- ClientContext.Receive: the same assumption, for both `forEach` loops.
- Platform.Receive: the same assumption, for `onReady` and `onMessage`.
- Chat UI (`apps/shell/src/App.tsx`), styling components, the demo apps, browser end-to-end tests and their configuration, and the re-export module. These are presentation glue or configuration.
- There is no handshake timeout or retry in the code, so none is modelled.
