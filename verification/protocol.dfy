/**
 * The wire protocol between the host page and the embedded app: three
 * envelope shapes, their object encoding, and the schema validator that
 * turns an untrusted value into an envelope or `null`.
 *
 * The validator is a union of three object schemas. Each object schema
 * demands a non-null, non-array value of `typeof` "object" (primitives and
 * arrays are rejected), reads the keys it declares as properties, checks them and strips every other key from its output, so unknown
 * extra keys never affect acceptance.
 */
module Protocol {
  import opened Wrappers
  import opened JsValue

  datatype Message = Init | Bootstrap | Payload(payload: string)

  /** The literal carried in the `type` key of each envelope. */
  function Tag(m: Message): string {
    match m
    case Init => "init"
    case Bootstrap => "bootstrap"
    case Payload(_) => "message"
  }

  /** The keys an envelope's object literal carries, and the values under them. */
  function Shape(m: Message): map<string, Value> {
    match m
    case Init => map["type" := Str("init")]
    case Bootstrap => map["type" := Str("bootstrap")]
    case Payload(p) => map["type" := Str("message"), "payload" := Str(p)]
  }

  /** The object a sender posts for `m`. */
  function Encode(m: Message): (v: Value)
    ensures v.Obj? && "type" in v.fields && v.fields["type"] == Str(Tag(m))
  {
    Obj(Shape(m))
  }

  /**
   * `v` satisfies the object schema of `m`'s variant with exactly `m`'s data:
   * it is a non-array object holding every key of `m`'s shape with the same
   * value, whatever else it holds. Among the values modelled here, the only
   * non-array objects are plain objects.
   */
  ghost predicate Conforms(v: Value, m: Message) {
    v.Obj? && forall k :: k in Shape(m) ==> k in v.fields && v.fields[k] == Shape(m)[k]
  }

  /**
   * `parseMessage`: a total validator. It returns the envelope the value
   * conforms to, and `None` (the source's `null`) exactly when the value
   * conforms to no envelope at all.
   */
  function ParseMessage(data: Value): (r: Option<Message>)
    ensures r.Some? ==> Conforms(data, r.value)
    ensures r.None? <==> forall m :: !Conforms(data, m)
  {
    match data
    case Obj(f) =>
      if "type" !in f then None
      else if f["type"] == Str("init") then assert Conforms(data, Init); Some(Init)
      else if f["type"] == Str("bootstrap") then assert Conforms(data, Bootstrap); Some(Bootstrap)
      else if f["type"] == Str("message") && "payload" in f && f["payload"].Str? then
        assert Conforms(data, Payload(f["payload"].s));
        Some(Payload(f["payload"].s))
      else None
    case _ => None
  }

  /** No value conforms to two different envelopes, so the union's order is irrelevant. */
  lemma ConformsUnique(v: Value, m1: Message, m2: Message)
    requires Conforms(v, m1) && Conforms(v, m2)
    ensures m1 == m2
  {
    assert "type" in Shape(m1) && "type" in Shape(m2);
    if m1.Payload? {
      assert "payload" in Shape(m1);
    }
  }

  /** The validator's answer is the one and only envelope a value conforms to. */
  lemma ParseMessageExact(data: Value, m: Message)
    ensures ParseMessage(data) == Some(m) <==> Conforms(data, m)
  {
    if Conforms(data, m) {
      var r := ParseMessage(data);
      assert r.Some?;
      ConformsUnique(data, r.value, m);
    }
  }

  /** Round trip: every envelope a sender posts validates back to itself. */
  lemma ParseEncode(m: Message)
    ensures ParseMessage(Encode(m)) == Some(m)
  {
    ParseMessageExact(Encode(m), m);
  }

  /** Extra keys are stripped: adding keys outside the shape does not change the verdict. */
  lemma ParseIgnoresExtraKeys(m: Message, extra: map<string, Value>)
    requires forall k :: k in extra ==> k !in Shape(m)
    ensures ParseMessage(Obj(Shape(m) + extra)) == Some(m)
  {
    ParseMessageExact(Obj(Shape(m) + extra), m);
  }

  /** An object whose `type` is exactly "init" is the Init envelope. */
  lemma ParseInit(f: map<string, Value>)
    requires "type" in f && f["type"] == Str("init")
    ensures ParseMessage(Obj(f)) == Some(Init)
  {
  }

  /** An object whose `type` is exactly "bootstrap" is the Bootstrap envelope. */
  lemma ParseBootstrap(f: map<string, Value>)
    requires "type" in f && f["type"] == Str("bootstrap")
    ensures ParseMessage(Obj(f)) == Some(Bootstrap)
  {
  }

  /**
   * An object whose `type` is "message" is a Payload envelope exactly when it
   * has a string `payload` (the empty string included); otherwise it is rejected.
   */
  lemma ParseMessageEnvelope(f: map<string, Value>)
    requires "type" in f && f["type"] == Str("message")
    ensures ParseMessage(Obj(f)).Some? <==> "payload" in f && f["payload"].Str?
    ensures "payload" in f && f["payload"].Str? ==> ParseMessage(Obj(f)) == Some(Payload(f["payload"].s))
  {
  }

  /**
   * Rejection: a non-object (arrays included), an object without `type`, or
   * one whose `type` is not one of the three literals, validates to `None`.
   */
  lemma ParseRejects(data: Value)
    requires
      || !data.Obj?
      || "type" !in data.fields
      || data.fields["type"] !in {Str("init"), Str("bootstrap"), Str("message")}
    ensures ParseMessage(data) == None
  {
  }
}
