/** The incremental decoder with its buffer, and the encoder that fills one. */
module FrameDecoder {
  import opened Common
  import opened FrameSpec
  import Spec = FrameSpec

  method EncodeDeviceProtocolFrame<M>(codec: Codec<M>, m: M) returns (r: Result<array<Byte>, FrameError>)
    ensures r.Ok? <==> Encode(codec, m).Ok?
    ensures r.Err? ==> Encode(codec, m) == Err(r.error)
    ensures r.Ok? ==> fresh(r.value) && r.value[..] == Encode(codec, m).value
  {
    var body := codec.render(m);
    if body.Err? { return Err(BodyInvalid(body.error)); }
    if |body.value| > MAX_FRAME { return Err(FrameTooLarge); }
    var frame := new Byte[4 + |body.value|](_ => 0);
    var header := WriteU32(|body.value|);
    frame[0], frame[1], frame[2], frame[3] := header[0], header[1], header[2], header[3];
    forall i | 0 <= i < |body.value| {
      frame[4 + i] := body.value[i];
    }
    assert frame[..4] == header && frame[4..] == body.value;
    assert frame[..] == frame[..4] + frame[4..];
    r := Ok(frame);
  }

  class DeviceProtocolFrameDecoder<M(!new)> {
    const codec: Codec<M>
    var buffer: Bytes

    constructor (codec: Codec<M>)
      ensures this.codec == codec && buffer == []
    {
      this.codec, this.buffer := codec, [];
    }

    function BufferedBytes(): int
      reads this
    {
      |buffer|
    }

    method Push(chunk: Bytes) returns (r: Result<seq<M>, FrameError>)
      modifies this
      ensures (buffer, r) == Spec.Push(codec, old(buffer), chunk)
    {
      if |chunk| == 0 { return Ok([]); }
      buffer := buffer + chunk;
      ghost var whole := Drain(codec, buffer);
      var messages: seq<M> := [];
      while |buffer| >= 4
        invariant whole == Then(messages, Drain(codec, buffer))
        decreases |buffer|
      {
        var length := ReadU32(buffer);
        if length <= 0 || length > MAX_FRAME { return Err(LengthInvalid); }
        if |buffer| < length + 4 { break; }
        var body := buffer[4..length + 4];
        buffer := buffer[length + 4..];
        var value := codec.parse(body);
        if value.Err? { return Err(BodyInvalid(value.error)); }
        messages := messages + [value.value];
      }
      assert whole == Drained(messages, buffer, None);
      if |buffer| > MAX_FRAME + 4 { return Err(BufferedTooMuch); }
      r := Ok(messages);
    }
  }
}
