/** Length-prefixed frames of the device protocol: a four-byte big-endian length and a JSON body. What one
    push of the decoder does to its buffer, and what a whole stream means. */
module FrameSpec {
  import opened Common

  type Byte = b: int | 0 <= b < 0x100
  type Bytes = seq<Byte>

  const MAX_FRAME := 256 * 1024

  datatype BodyError = NotJson | NotAMessage
  datatype FrameError = LengthInvalid | BodyInvalid(why: BodyError) | FrameTooLarge | BufferedTooMuch

  /** Printing and reading a validated message: JSON text in UTF-8 and back, with the message validator on
      both sides. */
  datatype Codec<!M> = Codec(render: M -> Result<Bytes, BodyError>, parse: Bytes -> Result<M, BodyError>)

  /** What is printed is not empty and is read back as the same message. */
  ghost predicate Faithful<M(!new)>(codec: Codec<M>) {
    forall m :: codec.render(m).Ok? ==> codec.render(m).value != [] && codec.parse(codec.render(m).value) == Ok(m)
  }

  function ReadU32(b: Bytes): (n: int)
    requires |b| >= 4
    ensures 0 <= n < 0x1_0000_0000
  {
    var b0: int, b1: int, b2: int, b3: int := b[0], b[1], b[2], b[3];
    b0 * 0x100_0000 + b1 * 0x1_0000 + b2 * 0x100 + b3
  }

  function WriteU32(n: nat): Bytes
    requires n < 0x1_0000_0000
  {
    var n1 := n / 0x100;
    var n2 := n1 / 0x100;
    [n2 / 0x100, n2 % 0x100, n1 % 0x100, n % 0x100]
  }

  // ---- Encoding ----

  function Encode<M>(codec: Codec<M>, m: M): Result<Bytes, FrameError> {
    var body := codec.render(m);
    if body.Err? then Err(BodyInvalid(body.error))
    else if |body.value| > MAX_FRAME then Err(FrameTooLarge)
    else Ok(WriteU32(|body.value|) + body.value)
  }

  predicate AllEncode<M>(codec: Codec<M>, ms: seq<M>) {
    forall i :: 0 <= i < |ms| ==> Encode(codec, ms[i]).Ok?
  }

  /** The frames of a list of messages, one after the other. */
  function Frames<M>(codec: Codec<M>, ms: seq<M>): Bytes
    requires AllEncode(codec, ms)
  {
    if ms == [] then [] else Encode(codec, ms[0]).value + Frames(codec, ms[1..])
  }

  // ---- Decoding ----

  datatype Drained<M> = Drained(messages: seq<M>, rest: Bytes, error: Option<FrameError>)

  /** Reads whole frames from the front of a buffer until there is none or one is bad. A frame whose body
      is bad has left the buffer; one whose length is bad has not. */
  function Drain<M>(codec: Codec<M>, buffer: Bytes): Drained<M>
    decreases |buffer|
  {
    if |buffer| < 4 then Drained([], buffer, None)
    else
      var length := ReadU32(buffer);
      if length <= 0 || length > MAX_FRAME then Drained([], buffer, Some(LengthInvalid))
      else if |buffer| < length + 4 then Drained([], buffer, None)
      else
        var rest := buffer[length + 4..];
        match codec.parse(buffer[4..length + 4])
        case Err(e) => Drained([], rest, Some(BodyInvalid(e)))
        case Ok(m) => Then([m], Drain(codec, rest))
  }

  function Then<M>(before: seq<M>, d: Drained<M>): Drained<M> {
    d.(messages := before + d.messages)
  }

  /** One push: the buffer afterwards and the messages returned, or the error thrown. */
  function Push<M>(codec: Codec<M>, buffer: Bytes, chunk: Bytes): (Bytes, Result<seq<M>, FrameError>) {
    if chunk == [] then (buffer, Ok([]))
    else
      var d := Drain(codec, buffer + chunk);
      if d.error.Some? then (d.rest, Err(d.error.value))
      else if |d.rest| > MAX_FRAME + 4 then (d.rest, Err(BufferedTooMuch))
      else (d.rest, Ok(d.messages))
  }

  /** Pushes of a list of chunks up to the first that throws: all messages returned, the buffer, the error. */
  function PushAll<M>(codec: Codec<M>, buffer: Bytes, chunks: seq<Bytes>): Drained<M>
    decreases |chunks|
  {
    if chunks == [] then Drained([], buffer, None)
    else
      var (after, r) := Push(codec, buffer, chunks[0]);
      if r.Err? then Drained([], after, Some(r.error)) else Then(r.value, PushAll(codec, after, chunks[1..]))
  }

  function Concat(chunks: seq<Bytes>): Bytes {
    if chunks == [] then [] else chunks[0] + Concat(chunks[1..])
  }
}
