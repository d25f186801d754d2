/**
 * The typed-primitive encoding of item values (valueToJsonElement and
 * jsonPrimitiveObject): a scalar becomes a {type, value} object, a
 * sequence becomes an array of encoded elements, anything else is refused.
 */
module ValueEncoding {
  import opened Outcomes
  import opened JsonValue

  /**
   * A runtime value handed to the writer, as a closed sum.  Array<*> and
   * Iterable<*> are encoded alike, so both are a Sequence; numbers carry
   * the simple name of their class ("Int", "Long", ...) and an integer
   * payload; Other stands for every type the encoder cannot write, by the
   * simple name of its class.
   */
  datatype Value =
    | Null
    | Str(s: string)
    | Num(kind: string, n: int)
    | Bool(b: bool)
    | Sequence(elems: seq<Value>)
    | Other(className: string)

  /** The values jsonPrimitiveObject is called on. */
  predicate IsScalar(v: Value) {
    v.Null? || v.Str? || v.Num? || v.Bool?
  }

  /** No value of an unwritable type occurs anywhere inside v. */
  predicate Supported(v: Value) {
    match v
    case Other(_) => false
    case Sequence(vs) => forall i :: 0 <= i < |vs| ==> Supported(vs[i])
    case _ => true
  }

  /** A value of class c that the encoder cannot write occurs inside v. */
  predicate HasUnwritable(v: Value, c: string) {
    match v
    case Other(c') => c' == c
    case Sequence(vs) => exists i :: 0 <= i < |vs| && HasUnwritable(vs[i], c)
    case _ => false
  }

  /** The "type" field of a scalar: its simple class name; JSON null for null. */
  function TypeTag(v: Value): Json
    requires IsScalar(v)
  {
    match v
    case Null => JNull
    case Str(_) => JString("String")
    case Num(kind, _) => JString(kind)
    case Bool(_) => JString("Boolean")
  }

  /** The "value" field of a scalar: the value itself; JSON null for null. */
  function Payload(v: Value): Json
    requires IsScalar(v)
  {
    match v
    case Null => JNull
    case Str(s) => JString(s)
    case Num(_, n) => JNum(n)
    case Bool(b) => JBool(b)
  }

  /** jsonPrimitiveObject: the {type, value} object of a scalar. */
  function PrimitiveObject(v: Value): (r: Json)
    requires IsScalar(v)
    ensures r.JObject? && r.fields.Keys == {"type", "value"}
    ensures v.Null? <==> r.fields["type"] == JNull
    ensures v.Null? ==> r.fields["value"] == JNull
  {
    JObject(map["type" := TypeTag(v), "value" := Payload(v)])
  }

  /**
   * valueToJsonElement.  A sequence is encoded element by element, in
   * order, and the first element that cannot be written makes the whole
   * value fail.
   */
  function Encode(v: Value): (r: Result<Json>)
    ensures r.Ok? <==> Supported(v)
    ensures r.Err? ==> r.fault.CannotWrite? && HasUnwritable(v, r.fault.typeName)
    ensures r.Ok? && IsScalar(v) ==> r.value.JObject? && r.value.fields.Keys == {"type", "value"}
    ensures r.Ok? && v.Sequence? ==> r.value.JArray? && |r.value.elems| == |v.elems|
    decreases v, 1
  {
    match v
    case Sequence(vs) =>
      (match EncodeAll(vs)
       case Ok(js) => Ok(JArray(js))
       case Err(f) => Err(f))
    case Other(c) => Err(CannotWrite(c))
    case _ => Ok(PrimitiveObject(v))
  }

  /** The encodings of vs, in order, or the fault of the first that fails. */
  function EncodeAll(vs: seq<Value>): (r: Result<seq<Json>>)
    ensures r.Ok? <==> forall i :: 0 <= i < |vs| ==> Supported(vs[i])
    ensures r.Err? ==> r.fault.CannotWrite? && exists i :: 0 <= i < |vs| && HasUnwritable(vs[i], r.fault.typeName)
    ensures r.Ok? ==> |r.value| == |vs|
    decreases vs, 0
  {
    if vs == [] then Ok([])
    else
      match Encode(vs[0])
      case Err(f) => Err(f)
      case Ok(j) =>
        match EncodeAll(vs[1..])
        case Err(f) =>
          assert forall i :: 1 <= i < |vs| ==> vs[i] == vs[1..][i - 1];
          Err(f)
        case Ok(js) =>
          assert forall i :: 1 <= i < |vs| ==> vs[i] == vs[1..][i - 1];
          Ok([j] + js)
  }

  /** The i-th element of an encoded sequence is the encoding of the i-th value. */
  lemma {:induction false} EncodeAllElementwise(vs: seq<Value>)
    requires EncodeAll(vs).Ok?
    ensures forall i :: 0 <= i < |vs| ==> Encode(vs[i]) == Ok(EncodeAll(vs).value[i])
  {
    if vs != [] {
      EncodeAllElementwise(vs[1..]);
      assert forall i :: 1 <= i < |vs| ==> vs[i] == vs[1..][i - 1];
    }
  }

  /** A supported sequence is encoded as an array of its elements' encodings. */
  lemma EncodeSequence(vs: seq<Value>)
    requires forall i :: 0 <= i < |vs| ==> Supported(vs[i])
    ensures Encode(Sequence(vs)).Ok?
    ensures var a := Encode(Sequence(vs)).value;
      a.JArray? && |a.elems| == |vs| &&
      forall i :: 0 <= i < |vs| ==> Encode(vs[i]) == Ok(a.elems[i])
  {
    EncodeAllElementwise(vs);
  }

  // ---------------------------------------------------------------------
  // A reference decoder, used to show that the encoding loses nothing.

  /** The scalar whose type field is tag and whose value field is payload. */
  function DecodeScalar(tag: Json, payload: Json): Option<Value> {
    match payload
    case JNull => if tag == JNull then Some(Null) else None
    case JString(s) => if tag == JString("String") then Some(Str(s)) else None
    case JNum(n) => if tag.JString? then Some(Num(tag.str, n)) else None
    case JBool(b) => if tag == JString("Boolean") then Some(Bool(b)) else None
    case _ => None
  }

  /** The value an encoded item stands for, if j has the shape of one. */
  function DecodeItem(j: Json): Option<Value>
    decreases j, 1
  {
    match j
    case JArray(js) =>
      (match DecodeItems(js)
       case Some(vs) => Some(Sequence(vs))
       case None => None)
    case JObject(m) =>
      if m.Keys == {"type", "value"} then DecodeScalar(m["type"], m["value"]) else None
    case _ => None
  }

  function DecodeItems(js: seq<Json>): Option<seq<Value>>
    decreases js, 0
  {
    if js == [] then Some([])
    else
      match DecodeItem(js[0])
      case None => None
      case Some(v) =>
        match DecodeItems(js[1..])
        case None => None
        case Some(vs) => Some([v] + vs)
  }

  /** The shape of an encoded item: a JSON element the decoder accepts. */
  predicate IsItemEncoding(j: Json) {
    DecodeItem(j).Some?
  }

  /** Decoding an encoding gives back the value. */
  lemma {:induction false} DecodeEncode(v: Value)
    requires Supported(v)
    ensures DecodeItem(Encode(v).value) == Some(v)
    decreases v, 1
  {
    match v
    case Sequence(vs) => DecodeEncodeAll(vs);
    case _ =>
  }

  lemma {:induction false} DecodeEncodeAll(vs: seq<Value>)
    requires forall i :: 0 <= i < |vs| ==> Supported(vs[i])
    ensures DecodeItems(EncodeAll(vs).value) == Some(vs)
    decreases vs, 0
  {
    if vs != [] {
      DecodeEncode(vs[0]);
      assert forall i :: 1 <= i < |vs| ==> vs[i] == vs[1..][i - 1];
      DecodeEncodeAll(vs[1..]);
      var js := EncodeAll(vs).value;
      assert js == [Encode(vs[0]).value] + EncodeAll(vs[1..]).value;
      assert js[1..] == EncodeAll(vs[1..]).value;
      assert vs == [vs[0]] + vs[1..];
    }
  }

  /** Every element the decoder accepts is the encoding of what it decodes to. */
  lemma {:induction false} EncodeDecode(j: Json)
    requires DecodeItem(j).Some?
    ensures Encode(DecodeItem(j).value) == Ok(j)
    decreases j, 1
  {
    match j
    case JArray(js) => EncodeDecodeAll(js);
    case JObject(m) =>
      var v := DecodeItem(j).value;
      assert m == map["type" := m["type"], "value" := m["value"]];
      assert Encode(v) == Ok(PrimitiveObject(v));
  }

  lemma {:induction false} EncodeDecodeAll(js: seq<Json>)
    requires DecodeItems(js).Some?
    ensures EncodeAll(DecodeItems(js).value) == Ok(js)
    decreases js, 0
  {
    if js != [] {
      EncodeDecode(js[0]);
      EncodeDecodeAll(js[1..]);
      var vs := DecodeItems(js).value;
      assert vs[1..] == DecodeItems(js[1..]).value;
      assert js == [js[0]] + js[1..];
    }
  }

  /** The encoder never maps two different values to the same element. */
  lemma EncodeInjective(v1: Value, v2: Value)
    requires Encode(v1).Ok? && Encode(v1) == Encode(v2)
    ensures v1 == v2
  {
    DecodeEncode(v1);
    DecodeEncode(v2);
  }

  /** The encodings are exactly the item shapes the decoder accepts. */
  lemma EncodingIsItem(v: Value)
    requires Supported(v)
    ensures IsItemEncoding(Encode(v).value)
  {
    DecodeEncode(v);
  }
}
