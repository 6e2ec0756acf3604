/** The decoder gives the same messages however the stream is cut, and gives back what was encoded. */
module FrameProofs {
  import opened Common
  import opened FrameSpec

  // ---- Chunk independence ----

  /** A drain that ends without an error can be carried on; one that ends with an error stands. */
  lemma {:induction false} DrainAppend<M>(codec: Codec<M>, a: Bytes, b: Bytes)
    ensures Drain(codec, a + b)
         == (var d := Drain(codec, a);
             if d.error.Some? then Drained(d.messages, d.rest + b, d.error) else Then(d.messages, Drain(codec, d.rest + b)))
    decreases |a|
  {
    hide Drain, ReadU32;
    DrainStep(codec, a);
    DrainStep(codec, a + b);
    if |a| >= 4 {
      ReadPrefix(a, b);
      var length := ReadU32(a);
      if 0 < length <= MAX_FRAME && |a| >= length + 4 {
        var rest := a[length + 4..];
        assert (a + b)[4..length + 4] == a[4..length + 4];
        assert (a + b)[length + 4..] == rest + b;
        DrainAppend(codec, rest, b);
        var body := codec.parse(a[4..length + 4]);
        if body.Ok? {
          assert [body.value] + (Drain(codec, rest).messages + Drain(codec, Drain(codec, rest).rest + b).messages)
            == ([body.value] + Drain(codec, rest).messages) + Drain(codec, Drain(codec, rest).rest + b).messages;
        }
      }
    }
  }

  lemma DrainStep<M>(codec: Codec<M>, a: Bytes)
    ensures |a| < 4 ==> Drain(codec, a) == Drained([], a, None)
    ensures |a| >= 4 && !(0 < ReadU32(a) <= MAX_FRAME) ==> Drain(codec, a) == Drained([], a, Some(LengthInvalid))
    ensures |a| >= 4 && 0 < ReadU32(a) <= MAX_FRAME && |a| < ReadU32(a) + 4 ==> Drain(codec, a) == Drained([], a, None)
    ensures |a| >= 4 && 0 < ReadU32(a) <= MAX_FRAME && |a| >= ReadU32(a) + 4 ==>
      var body, rest := codec.parse(a[4..ReadU32(a) + 4]), a[ReadU32(a) + 4..];
      Drain(codec, a) == if body.Ok? then Then([body.value], Drain(codec, rest)) else Drained([], rest, Some(BodyInvalid(body.error)))
  {
  }

  lemma ReadPrefix(a: Bytes, b: Bytes)
    requires |a| >= 4
    ensures ReadU32(a + b) == ReadU32(a)
  {
  }

  /** Nothing left to read: less than a length, or less than the frame the length announces. */
  ghost predicate Unfinished<M(!new)>(codec: Codec<M>, buffer: Bytes) {
    Drain(codec, buffer) == Drained([], buffer, None)
  }

  /** What a drain leaves is unfinished and short. */
  lemma {:induction false} RestIsUnfinished<M(!new)>(codec: Codec<M>, buffer: Bytes)
    ensures var d := Drain(codec, buffer);
            d.error == None ==> Unfinished(codec, d.rest) && |d.rest| <= MAX_FRAME + 3
    decreases |buffer|
  {
    if |buffer| >= 4 {
      var length := ReadU32(buffer);
      if 0 < length <= MAX_FRAME && |buffer| >= length + 4 {
        RestIsUnfinished(codec, buffer[length + 4..]);
      }
    }
  }

  /** The guard behind the loop never fires, whatever the buffer and the chunk. */
  lemma PushNeverTooLong<M>(codec: Codec<M>, buffer: Bytes, chunk: Bytes)
    ensures Push(codec, buffer, chunk).1 != Err(BufferedTooMuch)
  {
    if chunk != [] {
      DrainBounds(codec, buffer + chunk);
    }
  }

  lemma {:induction false} DrainBounds<M>(codec: Codec<M>, buffer: Bytes)
    ensures Drain(codec, buffer).error != Some(BufferedTooMuch)
    ensures Drain(codec, buffer).error == None ==> |Drain(codec, buffer).rest| <= MAX_FRAME + 3
    decreases |buffer|
  {
    if |buffer| >= 4 {
      var length := ReadU32(buffer);
      if 0 < length <= MAX_FRAME && |buffer| >= length + 4 {
        DrainBounds(codec, buffer[length + 4..]);
      }
    }
  }

  /** However a stream is cut into chunks (empty ones included), pushing them fails exactly when draining the
      whole stream does, and with the same error; when it does not fail, messages and leftover are the same;
      when it does, the messages returned before are the first of the stream. */
  lemma {:induction false} ChunksDoNotMatter<M(!new)>(codec: Codec<M>, buffer: Bytes, chunks: seq<Bytes>)
    requires Unfinished(codec, buffer)
    ensures var pushed, whole := PushAll(codec, buffer, chunks), Drain(codec, buffer + Concat(chunks));
            && pushed.error == whole.error
            && (pushed.error == None ==> pushed == whole)
            && pushed.messages <= whole.messages
    decreases |chunks|
  {
    hide Drain;
    if chunks == [] {
      assert buffer + Concat(chunks) == buffer;
    } else {
      var chunk, more := chunks[0], Concat(chunks[1..]);
      var d := Drain(codec, buffer + chunk);
      assert buffer + Concat(chunks) == (buffer + chunk) + more;
      DrainAppend(codec, buffer + chunk, more);
      RestIsUnfinished(codec, buffer + chunk);
      if chunk == [] {
        assert buffer + chunk == buffer;
        assert Then([], PushAll(codec, buffer, chunks[1..])) == PushAll(codec, buffer, chunks[1..]);
        assert Then([], Drain(codec, buffer + more)) == Drain(codec, buffer + more);
        ChunksDoNotMatter(codec, buffer, chunks[1..]);
      } else if d.error == None {
        ChunksDoNotMatter(codec, d.rest, chunks[1..]);
      }
    }
  }

  // ---- Round trip ----

  lemma ReadWritten(n: nat, b: Bytes)
    requires n < 0x1_0000_0000
    ensures ReadU32(WriteU32(n) + b) == n
  {
    var n1 := n / 0x100;
    var n2 := n1 / 0x100;
    assert n == n1 * 0x100 + n % 0x100;
    assert n1 == n2 * 0x100 + n1 % 0x100;
    assert n2 == n2 / 0x100 * 0x100 + n2 % 0x100;
    var w := WriteU32(n);
    assert (w + b)[0] == w[0] && (w + b)[1] == w[1] && (w + b)[2] == w[2] && (w + b)[3] == w[3];
  }

  lemma HighAndLow(m: nat, n: nat)
    requires m < n
    ensures m / 0x100 <= n / 0x100 && (m / 0x100 == n / 0x100 ==> m % 0x100 < n % 0x100)
  {
    assert m == m / 0x100 * 0x100 + m % 0x100 && n == n / 0x100 * 0x100 + n % 0x100;
  }

  /** The first bytes in which two headers differ. */
  predicate SmallerFrom(a: Bytes, b: Bytes, k: nat) {
    k < |a| && k < |b| && a[..k] == b[..k] && a[k] < b[k]
  }

  /** The length comes with its highest byte first: a smaller length has the header that is smaller byte by byte. */
  lemma HeadersInOrder(m: nat, n: nat) returns (k: nat)
    requires m < n < 0x1_0000_0000
    ensures SmallerFrom(WriteU32(m), WriteU32(n), k)
  {
    var m1, n1 := m / 0x100, n / 0x100;
    var m2, n2 := m1 / 0x100, n1 / 0x100;
    HighAndLow(m, n);
    if m1 < n1 { HighAndLow(m1, n1); }
    if m2 < n2 { HighAndLow(m2, n2); }
    k := if m2 / 0x100 < n2 / 0x100 then 0 else if m2 < n2 then 1 else if m1 < n1 then 2 else 3;
  }

  /** And reading takes any four bytes to the length whose header they are. */
  lemma WrittenRead(b: Bytes)
    requires |b| >= 4
    ensures WriteU32(ReadU32(b)) == b[..4]
  {
    var b0: int, b1: int, b2: int, b3: int := b[0], b[1], b[2], b[3];
    var n := ReadU32(b);
    var n1 := b0 * 0x1_0000 + b1 * 0x100 + b2;
    var n2 := b0 * 0x100 + b1;
    assert n == n1 * 0x100 + b3 && n / 0x100 == n1 && n % 0x100 == b3;
    assert n1 == n2 * 0x100 + b2 && n1 / 0x100 == n2 && n1 % 0x100 == b2;
    assert n2 / 0x100 == b0 && n2 % 0x100 == b1;
  }

  lemma DrainFrame<M(!new)>(codec: Codec<M>, m: M, rest: Bytes)
    requires Faithful(codec) && Encode(codec, m).Ok?
    ensures Drain(codec, Encode(codec, m).value + rest) == Then([m], Drain(codec, rest))
  {
    hide Drain, ReadU32, WriteU32;
    var body := codec.render(m).value;
    var header := WriteU32(|body|);
    var all := Encode(codec, m).value + rest;
    assert |header| == 4 by { HeaderLength(|body|); }
    assert all == header + (body + rest);
    ReadWritten(|body|, body + rest);
    assert all[4..|body| + 4] == body && all[|body| + 4..] == rest;
    DrainStep(codec, all);
  }

  lemma HeaderLength(n: nat)
    requires n < 0x1_0000_0000
    ensures |WriteU32(n)| == 4
  {
  }

  /** Draining frames gives the messages back, whatever follows them. */
  lemma {:induction false} DrainFrames<M(!new)>(codec: Codec<M>, ms: seq<M>, rest: Bytes)
    requires Faithful(codec) && AllEncode(codec, ms)
    ensures Drain(codec, Frames(codec, ms) + rest) == Then(ms, Drain(codec, rest))
    decreases |ms|
  {
    hide Drain;
    if ms == [] {
      assert Frames(codec, ms) + rest == rest;
    } else {
      DrainFrames(codec, ms[1..], rest);
      DrainFrame(codec, ms[0], Frames(codec, ms[1..]) + rest);
      assert Frames(codec, ms) + rest == Encode(codec, ms[0]).value + (Frames(codec, ms[1..]) + rest);
      assert [ms[0]] + (ms[1..] + Drain(codec, rest).messages) == ms + Drain(codec, rest).messages;
    }
  }

  /** A frame cut short is not read. */
  lemma PartialFrame<M(!new)>(codec: Codec<M>, m: M, k: nat)
    requires Faithful(codec) && Encode(codec, m).Ok? && k < |Encode(codec, m).value|
    ensures Unfinished(codec, Encode(codec, m).value[..k])
  {
    hide ReadU32, WriteU32;
    var body := codec.render(m).value;
    var frame := Encode(codec, m).value;
    HeaderLength(|body|);
    ReadWritten(|body|, body);
    if k >= 4 {
      assert frame == frame[..k] + frame[k..];
      ReadPrefix(frame[..k], frame[k..]);
    }
  }

  /** Messages that all encode, followed by part of the frame of a further one: any way of cutting the bytes
      yields exactly those messages in order and leaves exactly the unfinished part. */
  lemma RoundTrip<M(!new)>(codec: Codec<M>, ms: seq<M>, next: M, k: nat, chunks: seq<Bytes>)
    requires Faithful(codec) && AllEncode(codec, ms) && Encode(codec, next).Ok? && k < |Encode(codec, next).value|
    requires Concat(chunks) == Frames(codec, ms) + Encode(codec, next).value[..k]
    ensures PushAll(codec, [], chunks) == Drained(ms, Encode(codec, next).value[..k], None)
  {
    hide Drain, Encode, Frames;
    var tail := Encode(codec, next).value[..k];
    PartialFrame(codec, next, k);
    DrainFrames(codec, ms, tail);
    assert [] + Concat(chunks) == Concat(chunks);
    assert Unfinished(codec, []) by { DrainStep(codec, []); }
    ChunksDoNotMatter(codec, [], chunks);
    assert ms + [] == ms;
  }

  /** Two lists of messages with the same frames are the same list. */
  lemma FramesReadable<M(!new)>(codec: Codec<M>, ms: seq<M>, ns: seq<M>)
    requires Faithful(codec) && AllEncode(codec, ms) && AllEncode(codec, ns)
    ensures Frames(codec, ms) == Frames(codec, ns) <==> ms == ns
  {
    hide Drain, Frames;
    DrainFrames(codec, ms, []);
    DrainFrames(codec, ns, []);
    DrainStep(codec, []);
    assert ms + [] == ms && ns + [] == ns;
  }
}
