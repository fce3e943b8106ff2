/** Wire framing: a payload frame is one codec byte (32, an ASCII space, for
    JSON) followed by the UTF-8 JSON text. */
module Codec {
  import opened Results
  import opened Json
  import opened Exceptions

  newtype byte = x: int | 0 <= x < 256

  type Frame = seq<byte>

  /** The only supported codec tag. */
  const JSON_CODEC: byte := 32

  /** `json.dumps(v).encode()` and `json.loads(b.decode())`, left abstract. A
      failed load yields the name of the exception it raised. */
  datatype Serializer = Serializer(dumps: Json -> Frame, loads: Frame -> Result<Json, string>)

  /** What the JSON library guarantees and the framing relies on: the text of
      a dumped value, even behind a leading space (JSON whitespace), loads
      back to that value. */
  ghost predicate Lawful(ser: Serializer) {
    forall v: Json :: ser.loads([JSON_CODEC] + ser.dumps(v)) == Success(v)
  }

  /** `(" " + json.dumps(v)).encode()`. */
  function Encode(ser: Serializer, v: Json): (bytes: Frame)
    ensures |bytes| > 0 && bytes[0] == JSON_CODEC
    ensures bytes[1..] == ser.dumps(v)
  {
    [JSON_CODEC] + ser.dumps(v)
  }

  /** `parse_message`: the codec byte is checked first; the whole frame,
      leading space included, is then decoded and parsed. */
  function ParseMessage(ser: Serializer, raw: Frame): (r: Result<Json, Exception>)
    ensures r == Failure(CodecException) <==> |raw| > 0 && raw[0] != JSON_CODEC
    ensures |raw| == 0 ==> r == Failure(Unexpected("IndexError"))
    ensures r.Success? <==> |raw| > 0 && raw[0] == JSON_CODEC && ser.loads(raw).Success?
    ensures r.Success? ==> ser.loads(raw) == Success(r.value)
    ensures r.Failure? && r.error.DecodingException? ==> ser.loads(raw) == Failure(r.error.cause)
  {
    if |raw| == 0 then Failure(Unexpected("IndexError"))
    else if raw[0] != JSON_CODEC then Failure(CodecException)
    else match ser.loads(raw)
      case Failure(cause) => Failure(DecodingException(cause))
      case Success(v) => Success(v)
  }

  /** Whatever the frontend encodes passes its own codec check and decodes to
      the value that was encoded. */
  lemma ParseEncoded(ser: Serializer, v: Json)
    requires Lawful(ser)
    ensures ParseMessage(ser, Encode(ser, v)) == Success(v)
  {
  }
}
