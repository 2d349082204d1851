/**
 Raw PCM framing for push-to-talk: PttAudioChannel.kt (`captureRawPcm`, `pcmToBytes`) and
 PttAudioChannel.swift (`processTap`, `sendPcm`, `playFrame`). Audio samples on iOS are reals here.
 */
module PttAudio {
  import opened Wrappers
  import opened Rounding

  const FRAME_SAMPLES: nat := 960
  const CODEC_PCM: Byte := 0

  type Sample = x: int | -32768 <= x < 32768
  type Byte = x: int | 0 <= x < 256

  // ---------------------------------------------------------------- cutting a stream into frames

  function Frames<T>(s: seq<T>): seq<seq<T>> {
    if |s| < FRAME_SAMPLES then [] else [s[..FRAME_SAMPLES]] + Frames(s[FRAME_SAMPLES..])
  }

  /** What is left over. */
  function Rest<T>(s: seq<T>): seq<T> {
    if |s| < FRAME_SAMPLES then s else Rest(s[FRAME_SAMPLES..])
  }

  function Flatten<T>(parts: seq<seq<T>>): seq<T> {
    if parts == [] then [] else parts[0] + Flatten(parts[1..])
  }

  ghost predicate Whole<T>(frames: seq<seq<T>>) {
    forall i | 0 <= i < |frames| :: |frames[i]| == FRAME_SAMPLES
  }

  /** Nothing is lost, repeated or reordered, and every frame is full. */
  lemma {:induction false} FramesKeepEverything<T>(s: seq<T>)
    ensures Flatten(Frames(s)) + Rest(s) == s
    ensures Whole(Frames(s)) && |Rest(s)| < FRAME_SAMPLES
    decreases |s|
  {
    if |s| >= FRAME_SAMPLES {
      FramesKeepEverything(s[FRAME_SAMPLES..]);
      assert Frames(s)[1..] == Frames(s[FRAME_SAMPLES..]);
      assert s == s[..FRAME_SAMPLES] + s[FRAME_SAMPLES..];
      assert Flatten(Frames(s)) + Rest(s) == s[..FRAME_SAMPLES] + (Flatten(Frames(s[FRAME_SAMPLES..])) + Rest(s));
    }
  }

  /** There is only one way to cut a stream into full frames with less than a frame over. */
  lemma {:induction false} FramingIsUnique<T>(frames: seq<seq<T>>, rest: seq<T>)
    requires Whole(frames) && |rest| < FRAME_SAMPLES
    ensures Frames(Flatten(frames) + rest) == frames && Rest(Flatten(frames) + rest) == rest
    decreases frames
  {
    if frames == [] {
      assert Flatten(frames) + rest == rest;
    } else {
      FramingIsUnique(frames[1..], rest);
      var s := Flatten(frames) + rest;
      assert s == frames[0] + (Flatten(frames[1..]) + rest);
      assert s[..FRAME_SAMPLES] == frames[0] && s[FRAME_SAMPLES..] == Flatten(frames[1..]) + rest;
    }
  }

  /** Framing can be resumed from the leftovers. */
  lemma {:induction false} FramesResume<T>(s: seq<T>, more: seq<T>)
    ensures Frames(s + more) == Frames(s) + Frames(Rest(s) + more)
    ensures Rest(s + more) == Rest(Rest(s) + more)
    decreases |s|
  {
    if |s| >= FRAME_SAMPLES {
      FramesResume(s[FRAME_SAMPLES..], more);
      assert (s + more)[..FRAME_SAMPLES] == s[..FRAME_SAMPLES];
      assert (s + more)[FRAME_SAMPLES..] == s[FRAME_SAMPLES..] + more;
    } else {
      assert Frames(s) + Frames(s + more) == Frames(s + more);
    }
  }

  // ---------------------------------------------------------------- sixteen-bit little-endian

  function LowByte(x: Sample): Byte { x % 256 }

  function HighByte(x: Sample): Byte { (x / 256) % 256 }

  /** Two's complement. */
  function FromBytes(low: Byte, high: Byte): Sample {
    var u := low + 256 * high;
    if u >= 32768 then u - 65536 else u
  }

  lemma BytesRoundTrip(x: Sample, low: Byte, high: Byte)
    ensures FromBytes(LowByte(x), HighByte(x)) == x
    ensures LowByte(FromBytes(low, high)) == low && HighByte(FromBytes(low, high)) == high
  {
  }

  function Encode(samples: seq<Sample>): seq<Byte> {
    if samples == [] then [] else [LowByte(samples[0]), HighByte(samples[0])] + Encode(samples[1..])
  }

  /** A trailing odd byte is ignored. */
  function Decode(bytes: seq<Byte>): seq<Sample> {
    if |bytes| < 2 then [] else [FromBytes(bytes[0], bytes[1])] + Decode(bytes[2..])
  }

  lemma {:induction false} DecodeEncode(samples: seq<Sample>, odd: seq<Byte>)
    requires |odd| <= 1
    ensures Decode(Encode(samples) + odd) == samples
    ensures |Encode(samples)| == 2 * |samples|
  {
    if samples == [] {
      assert Encode(samples) + odd == odd;
    } else {
      DecodeEncode(samples[1..], odd);
      BytesRoundTrip(samples[0], 0, 0);
      var bytes := Encode(samples) + odd;
      assert bytes[2..] == Encode(samples[1..]) + odd;
    }
  }

  lemma {:induction false} EncodeDecode(bytes: seq<Byte>)
    requires |bytes| % 2 == 0
    ensures Encode(Decode(bytes)) == bytes
  {
    if bytes != [] {
      EncodeDecode(bytes[2..]);
      var x := FromBytes(bytes[0], bytes[1]);
      assert Decode(bytes) == [x] + Decode(bytes[2..]);
      EncodePrepend(x, Decode(bytes[2..]));
      assert bytes == [bytes[0], bytes[1]] + bytes[2..];
      assert [LowByte(x), HighByte(x)] == [bytes[0], bytes[1]] by {
        BytesRoundTrip(0, bytes[0], bytes[1]);
      }
    }
  }

  lemma EncodePrepend(x: Sample, samples: seq<Sample>)
    ensures Encode([x] + samples) == [LowByte(x), HighByte(x)] + Encode(samples)
  {
    assert ([x] + samples)[1..] == samples;
  }

  lemma {:induction false} DecodeAt(bytes: seq<Byte>, i: nat)
    requires i < |bytes| / 2
    ensures |Decode(bytes)| == |bytes| / 2
    ensures Decode(bytes)[i] == FromBytes(bytes[2 * i], bytes[2 * i + 1])
  {
    if |bytes| >= 4 {
      DecodeAt(bytes[2..], if i == 0 then 0 else i - 1);
    }
  }

  lemma {:induction false} EncodeAppend(a: seq<Sample>, x: Sample)
    ensures Encode(a + [x]) == Encode(a) + [LowByte(x), HighByte(x)]
  {
    if a == [] {
      assert a + [x] == [x];
    } else {
      EncodeAppend(a[1..], x);
      assert (a + [x])[1..] == a[1..] + [x];
    }
  }

  /** The bytes of sample i, low before high, make its 16-bit two's complement. */
  lemma {:induction false} EncodedAt(samples: seq<Sample>, i: nat)
    requires i < |samples|
    ensures |Encode(samples)| == 2 * |samples|
    ensures var low: int, high: int, x: int := Encode(samples)[2 * i], Encode(samples)[2 * i + 1], samples[i];
            low + 256 * high == if x >= 0 then x else x + 65536
  {
    DecodeEncode(samples, []);
    DecodeEncode(samples[1..], []);
    if i > 0 {
      EncodedAt(samples[1..], i - 1);
      assert Encode(samples)[2 * i] == Encode(samples[1..])[2 * (i - 1)];
      assert Encode(samples)[2 * i + 1] == Encode(samples[1..])[2 * (i - 1) + 1];
    }
  }

  /** What goes to Dart: the codec tag, then the samples. */
  function Framed(samples: seq<Sample>): seq<Byte> {
    [CODEC_PCM] + Encode(samples)
  }

  function FramedAll(frames: seq<seq<Sample>>): seq<seq<Byte>> {
    if frames == [] then [] else FramedAll(frames[..|frames| - 1]) + [Framed(frames[|frames| - 1])]
  }

  lemma FramedAllAppend(frames: seq<seq<Sample>>, f: seq<Sample>)
    ensures FramedAll(frames + [f]) == FramedAll(frames) + [Framed(f)]
  {
    assert (frames + [f])[..|frames|] == frames;
  }

  /** What a receiver makes of the packets; an empty one is ignored. */
  function DecodedAll(packets: seq<seq<Byte>>): seq<Sample> {
    if packets == [] then []
    else (if packets[0] == [] then [] else Decode(packets[0][1..])) + DecodedAll(packets[1..])
  }

  lemma {:induction false} DecodedFramed(frames: seq<seq<Sample>>)
    ensures |FramedAll(frames)| == |frames|
    ensures forall i | 0 <= i < |frames| :: FramedAll(frames)[i] == Framed(frames[i])
  {
    if frames != [] {
      DecodedFramed(frames[..|frames| - 1]);
    }
  }

  lemma {:induction false} DecodedIsFlat(frames: seq<seq<Sample>>, packets: seq<seq<Byte>>)
    requires |packets| == |frames| && forall i | 0 <= i < |frames| :: packets[i] == Framed(frames[i])
    ensures DecodedAll(packets) == Flatten(frames)
    decreases frames
  {
    if frames != [] {
      DecodedIsFlat(frames[1..], packets[1..]);
      DecodeEncode(frames[0], []);
      assert Encode(frames[0]) + [] == Encode(frames[0]);
      assert packets[0][1..] == Encode(frames[0]);
    }
  }

  /** Decoding every packet and appending the leftovers gives back the microphone's stream. */
  lemma PacketsCarryTheStream(heard: seq<Sample>)
    ensures DecodedAll(FramedAll(Frames(heard))) + Rest(heard) == heard
    ensures forall i | 0 <= i < |FramedAll(Frames(heard))| ::
              |FramedAll(Frames(heard))[i]| == 1921 && FramedAll(Frames(heard))[i][0] == 0
  {
    DecodedFramed(Frames(heard));
    DecodedIsFlat(Frames(heard), FramedAll(Frames(heard)));
    FramesKeepEverything(heard);
    forall i | 0 <= i < |Frames(heard)| ensures |Framed(Frames(heard)[i])| == 1 + 2 * FRAME_SAMPLES {
      DecodeEncode(Frames(heard)[i], []);
    }
  }

  // ---------------------------------------------------------------- Android capture

  /** One `AudioRecord.read`: samples, or nothing (zero or an error code). */
  datatype Read = Nothing | Samples(samples: seq<Sample>)

  function Heard(taken: seq<Read>): seq<Sample> {
    if taken == [] then []
    else Heard(taken[..|taken| - 1]) + (if taken[|taken| - 1].Samples? then taken[|taken| - 1].samples else [])
  }

  /** Reads are heard one after the other, and failed ones not at all. */
  lemma HeardInOrder(taken: seq<Read>, more: seq<Sample>)
    ensures Heard([]) == []
    ensures Heard(taken + [Samples(more)]) == Heard(taken) + more
    ensures Heard(taken + [Nothing]) == Heard(taken)
  {
    assert (taken + [Samples(more)])[..|taken|] == taken && (taken + [Nothing])[..|taken|] == taken;
    assert Heard(taken) + [] == Heard(taken);
  }

  method PcmToBytes(shorts: array<Sample>, length: nat) returns (bytes: array<Byte>)
    requires length <= shorts.Length
    ensures fresh(bytes) && bytes[..] == Encode(shorts[..length])
  {
    bytes := new Byte[length * 2](_ => 0);
    for i := 0 to length
      invariant fresh(bytes) && bytes[..2 * i] == Encode(shorts[..i])
    {
      bytes[2 * i], bytes[2 * i + 1] := LowByte(shorts[i]), HighByte(shorts[i]);
      assert shorts[..i + 1] == shorts[..i] + [shorts[i]];
      EncodeAppend(shorts[..i], shorts[i]);
    }
    assert bytes[..] == bytes[..2 * length];
  }

  method ArrayCopy(src: array<Sample>, srcPos: nat, dst: array<Sample>, dstPos: nat, length: nat)
    requires src != dst && srcPos + length <= src.Length && dstPos + length <= dst.Length
    modifies dst
    ensures dst[..dstPos + length] == old(dst[..dstPos]) + src[srcPos..srcPos + length]
  {
    forall k | 0 <= k < length {
      dst[dstPos + k] := src[srcPos + k];
    }
  }

  /** The tagged packet for a full accumulator. */
  method Packet(accumulator: array<Sample>) returns (frame: seq<Byte>)
    requires accumulator.Length == FRAME_SAMPLES
    ensures frame == Framed(accumulator[..])
  {
    var bytes := PcmToBytes(accumulator, FRAME_SAMPLES);
    assert accumulator[..FRAME_SAMPLES] == accumulator[..];
    frame := [CODEC_PCM] + bytes[..];
  }

  /** One read is poured into the accumulator, which is emitted each time it is full. */
  method Pour(chunk: array<Sample>, read: nat, accumulator: array<Sample>, filled: nat, ghost heard: seq<Sample>)
    returns (accumulated: nat, frames: seq<seq<Byte>>)
    requires chunk != accumulator && accumulator.Length == FRAME_SAMPLES && read <= chunk.Length
    requires filled < FRAME_SAMPLES && accumulator[..filled] == heard
    modifies accumulator
    ensures accumulated < FRAME_SAMPLES
    ensures accumulator[..accumulated] == Rest(heard + chunk[..read])
    ensures frames == FramedAll(Frames(heard + chunk[..read]))
  {
    accumulated, frames := filled, [];
    var offset := 0;
    assert heard + chunk[..0] == heard;
    while offset < read
      invariant offset <= read && accumulated < FRAME_SAMPLES
      invariant accumulator[..accumulated] == Rest(heard + chunk[..offset])
      invariant frames == FramedAll(Frames(heard + chunk[..offset]))
      decreases read - offset
    {
      var toCopy := if read - offset <= FRAME_SAMPLES - accumulated then read - offset else FRAME_SAMPLES - accumulated;
      ghost var before := heard + chunk[..offset];
      ghost var more := chunk[offset..offset + toCopy];
      assert before + more == heard + chunk[..offset + toCopy];
      FramesResume(before, more);
      ArrayCopy(chunk, offset, accumulator, accumulated, toCopy);
      accumulated, offset := accumulated + toCopy, offset + toCopy;
      assert accumulator[..accumulated] == Rest(before) + more;
      if accumulated == FRAME_SAMPLES {
        assert accumulator[..] == Rest(before) + more;
        var frame := Packet(accumulator);
        OneFrame(accumulator[..]);
        FramedAllAppend(Frames(before), accumulator[..]);
        frames := frames + [frame];
        accumulated := 0;
      } else {
        assert Frames(before) + [] == Frames(before);
      }
    }
  }

  lemma OneFrame<T>(s: seq<T>)
    requires |s| == FRAME_SAMPLES
    ensures Frames(s) == [s] && Rest(s) == []
  {
    assert s[..FRAME_SAMPLES] == s;
  }

  lemma {:induction false} FramedAllConcat(a: seq<seq<Sample>>, b: seq<seq<Sample>>)
    ensures FramedAll(a + b) == FramedAll(a) + FramedAll(b)
    decreases b
  {
    if b == [] {
      assert a + b == a;
    } else {
      var init, last := b[..|b| - 1], b[|b| - 1];
      FramedAllConcat(a, init);
      assert a + b == (a + init) + [last];
      FramedAllAppend(a + init, last);
    }
  }

  /** Whatever the sizes of the reads, the packets are those of the concatenated stream. */
  method CaptureRawPcm(taken: seq<Read>) returns (frames: seq<seq<Byte>>, ghost left: seq<Sample>)
    requires forall i | 0 <= i < |taken| && taken[i].Samples? :: |taken[i].samples| <= FRAME_SAMPLES
    ensures frames == FramedAll(Frames(Heard(taken)))
    ensures left == Rest(Heard(taken)) && |left| < FRAME_SAMPLES
  {
    var accumulator := new Sample[FRAME_SAMPLES](_ => 0);
    var accumulated: nat := 0;
    frames := [];
    for n := 0 to |taken|
      invariant accumulated < FRAME_SAMPLES && accumulator[..accumulated] == Rest(Heard(taken[..n]))
      invariant frames == FramedAll(Frames(Heard(taken[..n])))
    {
      assert taken[..n + 1][..n] == taken[..n];
      if taken[n].Nothing? {
        assert Heard(taken[..n]) + [] == Heard(taken[..n]);
        continue;
      }
      var samples := taken[n].samples;
      var chunk := new Sample[|samples|](i requires 0 <= i < |samples| => samples[i]);
      assert chunk[..|samples|] == samples;
      ghost var before := Heard(taken[..n]);
      FramesResume(before, samples);
      FramedAllConcat(Frames(before), Frames(Rest(before) + samples));
      var out;
      accumulated, out := Pour(chunk, |samples|, accumulator, accumulated, Rest(before));
      frames := frames + out;
    }
    assert taken[..|taken|] == taken;
    left := accumulator[..accumulated];
  }

  // ---------------------------------------------------------------- iOS capture

  /** The accumulator between taps. The ghost fields remember the session. */
  class PttAudioChannel {
    var accumulator: seq<real>
    ghost var heard: seq<real>
    ghost var emitted: seq<seq<real>>

    ghost predicate Valid()
      reads this
    {
      accumulator == Rest(heard) && emitted == Frames(heard)
    }

    constructor ()
      ensures Valid() && heard == []
    {
      accumulator, heard, emitted := [], [], [];
    }

    method ProcessTap(mono: seq<real>) returns (chunks: seq<seq<real>>)
      requires Valid()
      modifies this
      ensures Valid() && heard == old(heard) + mono && emitted == old(emitted) + chunks
      ensures chunks == Frames(old(accumulator) + mono)
    {
      FramesResume(heard, mono);
      accumulator, chunks := Cut(accumulator + mono);
      heard, emitted := heard + mono, emitted + chunks;
    }

    method StopRecording()
      modifies this
      ensures Valid() && heard == []
    {
      accumulator, heard, emitted := [], [], [];
    }
  }

  method Cut(samples: seq<real>) returns (accumulator: seq<real>, chunks: seq<seq<real>>)
    ensures accumulator == Rest(samples) && chunks == Frames(samples)
  {
    accumulator, chunks := samples, [];
    while |accumulator| >= FRAME_SAMPLES
      invariant Rest(accumulator) == Rest(samples) && chunks + Frames(accumulator) == Frames(samples)
      decreases |accumulator|
    {
      chunks := chunks + [accumulator[..FRAME_SAMPLES]];
      accumulator := accumulator[FRAME_SAMPLES..];
    }
  }

  // ---------------------------------------------------------------- iOS conversion

  function Clamp(n: int): Sample {
    if n < -32768 then -32768 else if n > 32767 then 32767 else n
  }

  function ToInt16(x: real): Sample {
    Clamp(Round(x * 32767.0))
  }

  function ToFloat(s: Sample): real {
    s as real / 32767.0
  }

  /** Every 16-bit sample survives being played and re-sent, even -32768, which plays just below -1. */
  lemma PlayedSampleSurvives(s: Sample)
    ensures ToInt16(ToFloat(s)) == s
  {
    assert ToFloat(s) * 32767.0 == s as real;
    RoundWhole(s);
  }

  /** In range, sending loses at most half a step; outside, the sample saturates. */
  lemma SentSampleIsNearest(x: real)
    ensures -32768.0 / 32767.0 <= x <= 1.0 ==> -0.5 / 32767.0 <= ToFloat(ToInt16(x)) - x <= 0.5 / 32767.0
    ensures x > 1.0 ==> ToInt16(x) == 32767
    ensures x <= -32768.0 / 32767.0 ==> ToInt16(x) == -32768
  {
    RoundNearest(x * 32767.0);
    RoundWhole(32767);
    RoundWhole(-32768);
    if -32768.0 / 32767.0 <= x <= 1.0 {
      RoundMonotone(-32768.0, x * 32767.0);
      RoundMonotone(x * 32767.0, 32767.0);
      assert ToInt16(x) == Round(x * 32767.0);
      assert ToFloat(ToInt16(x)) * 32767.0 == ToInt16(x) as real;
    } else if x > 1.0 {
      RoundMonotone(32767.0, x * 32767.0);
    }
    if x <= -32768.0 / 32767.0 {
      RoundMonotone(x * 32767.0, -32768.0);
    }
  }

  function SendPcm(samples: seq<real>): (packet: seq<Byte>)
    ensures |packet| == 1 + 2 * |samples| && packet[0] == 0
    ensures |Decode(packet[1..])| == |samples|
    ensures forall i | 0 <= i < |samples| :: Decode(packet[1..])[i] == ToInt16(samples[i])
  {
    var int16: seq<Sample> := seq(|samples|, i requires 0 <= i < |samples| => ToInt16(samples[i]));
    DecodeEncode(int16, []);
    assert Encode(int16) + [] == Encode(int16);
    assert Framed(int16)[1..] == Encode(int16);
    Framed(int16)
  }

  /** The buffer scheduled for playback; None when the payload holds no whole sample. */
  method PlayFrame(payload: seq<Byte>) returns (buf: Option<array<real>>)
    ensures buf.Some? <==> |payload| >= 2
    ensures buf.Some? ==> buf.value.Length == |Decode(payload)|
    ensures buf.Some? ==> forall i | 0 <= i < |Decode(payload)| :: buf.value[i] == ToFloat(Decode(payload)[i])
  {
    var sampleCount := |payload| / 2;
    if sampleCount == 0 {
      return None;
    }
    DecodeAt(payload, 0);
    var dst := new real[sampleCount];
    for i := 0 to sampleCount
      invariant forall k | 0 <= k < i :: dst[k] == ToFloat(Decode(payload)[k])
    {
      DecodeAt(payload, i);
      dst[i] := ToFloat(FromBytes(payload[2 * i], payload[2 * i + 1]));
    }
    return Some(dst);
  }

  /** From one iPhone's microphone to another's speaker: every sample in range arrives within half a step. */
  lemma HeardAsSpoken(samples: seq<real>, i: nat)
    requires i < |samples| && -32768.0 / 32767.0 <= samples[i] <= 1.0
    ensures var played := ToFloat(Decode(SendPcm(samples)[1..])[i]);
            -0.5 / 32767.0 <= played - samples[i] <= 0.5 / 32767.0
  {
    SentSampleIsNearest(samples[i]);
  }
}
