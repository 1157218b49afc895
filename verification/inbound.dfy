/**
 * The inbound filter both adapters actually apply to a `message` event's
 * data (Container.tsx and context.ts carry the same line): the data must be
 * truthy, of `typeof` "object" and have a `type` key; the switch on
 * `data.type` then picks a branch, and the `message` branch reads
 * `data.payload` without checking it. Neither adapter calls the validator.
 */
module Inbound {
  import opened Wrappers
  import opened JsValue
  import opened Protocol

  /** The branch an adapter's switch takes. The payload is whatever `data.payload` read. */
  datatype Envelope = SawInit | SawBootstrap | SawMessage(payload: Value)

  /**
   * The shallow guard `!data || typeof data !== "object" || !("type" in data)`,
   * negated. Arrays pass it too when they carry a named `type` key.
   */
  predicate PassesGuard(data: Value)
    ensures PassesGuard(data) <==> (data.Obj? || data.Arr?) && "type" in OwnProps(data)
  {
    Truthy(data) && TypeOf(data) == "object" && HasProperty(data, "type")
  }

  /** `data.type` strictly equals the literal `tag`. */
  predicate TypeIs(data: Value, tag: string) {
    (data.Obj? || data.Arr?) && "type" in OwnProps(data) && OwnProps(data)["type"] == Str(tag)
  }

  /**
   * Guard followed by the switch on `data.type` (strict equality against the
   * case literals). `None` means every adapter ignores the event.
   */
  function Classify(data: Value): (r: Option<Envelope>)
    ensures r.Some? ==> PassesGuard(data)
    ensures r == Some(SawInit) <==> TypeIs(data, "init")
    ensures r == Some(SawBootstrap) <==> TypeIs(data, "bootstrap")
    ensures r.Some? && r.value.SawMessage? <==> TypeIs(data, "message")
    ensures r.Some? && r.value.SawMessage? ==>
      r.value.payload == if "payload" in OwnProps(data) then OwnProps(data)["payload"] else Undefined
  {
    if !PassesGuard(data) then None
    else
      var tag := GetProperty(data, "type");
      if tag == Str("init") then Some(SawInit)
      else if tag == Str("bootstrap") then Some(SawBootstrap)
      else if tag == Str("message") then Some(SawMessage(GetProperty(data, "payload")))
      else None
  }

  /** The branch a validated envelope would take. */
  function Lift(m: Message): Envelope {
    match m
    case Init => SawInit
    case Bootstrap => SawBootstrap
    case Payload(p) => SawMessage(Str(p))
  }

  /**
   * The shallow filter agrees with the validator on everything the validator
   * accepts: a value validates to `m` exactly when it is not an array and the
   * filter routes it to `m`'s branch with `m`'s payload.
   */
  lemma ClassifyAgreesWithParse(data: Value, m: Message)
    ensures ParseMessage(data) == Some(m) <==> !data.Arr? && Classify(data) == Some(Lift(m))
  {
  }

  /**
   * What the filter lets through beyond the validator: arrays carrying a
   * `type` literal (any of the three branches), and `message` events whose
   * `payload` is missing or not a string.
   */
  lemma ClassifyWeakerThanParse(data: Value)
    requires ParseMessage(data).None? && Classify(data).Some?
    ensures data.Arr? || (Classify(data).value.SawMessage? && !Classify(data).value.payload.Str?)
  {
  }

  /** Conversely, both kinds of extra value do get through the filter. */
  lemma ClassifyExtrasAreReal(data: Value)
    requires
      || (data.Arr? && (TypeIs(data, "init") || TypeIs(data, "bootstrap") || TypeIs(data, "message")))
      || (data.Obj? && TypeIs(data, "message") && !("payload" in data.fields && data.fields["payload"].Str?))
    ensures ParseMessage(data).None? && Classify(data).Some?
  {
  }

  /** A concrete event the validator rejects but the adapters forward: `{type: "message"}`. */
  lemma MissingPayloadIsForwarded()
    ensures ParseMessage(Obj(map["type" := Str("message")])) == None
    ensures Classify(Obj(map["type" := Str("message")])) == Some(SawMessage(Undefined))
  {
  }

  /**
   * A concrete array the validator rejects but the adapters route to the
   * `init` branch: `Object.assign([], {type: "init"})`.
   */
  lemma ArrayTypedInitIsRouted()
    ensures ParseMessage(Arr([], map["type" := Str("init")])) == None
    ensures Classify(Arr([], map["type" := Str("init")])) == Some(SawInit)
  {
  }
}
