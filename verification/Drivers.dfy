/** The in-place loops of the infrared, speaker and microphone drivers, each against what its caller relies on. */
module Drivers {
  import opened Bytes
  import opened Protocol

  // ----- esp32/ir_driver.cpp -----

  /** A result of the receiver library: `rawlen` ticks, the first of which is the gap before the signal. */
  datatype RawCapture = RawCapture(rawlen: uint16, rawbuf: seq<uint16>, overflow: bool)

  predicate ValidCapture(c: RawCapture) {
    c.rawlen <= |c.rawbuf|
  }

  datatype Capture = Capture(raw: seq<uint16>, overflow: bool)

  /** One timing in microseconds, saturated at 65535. */
  function Microseconds(ticks: uint16, rawTick: uint16): uint16 {
    var us: int := ticks as int * rawTick as int;
    Min(us, 65535)
  }

  /** The timings of a capture after its gap, at most 512 of them; cutting some off counts as an overflow. */
  function Captured(rawTick: uint16, c: RawCapture): (r: Option<Capture>)
    requires ValidCapture(c)
    ensures r.Some? <==> c.rawlen >= 2
    ensures r.Some? ==> |r.value.raw| == Min(c.rawlen - 1, IR_MAX_RAW_LENGTH)
  {
    if c.rawlen <= 1 then None
    else
      var n := Min(c.rawlen - 1, IR_MAX_RAW_LENGTH);
      Some(Capture(seq(n, i requires 0 <= i < n => Microseconds(c.rawbuf[1 + i], rawTick)),
                   c.overflow || c.rawlen - 1 > IR_MAX_RAW_LENGTH))
  }

  method IrReceiveRaw(ready: bool, rawTick: uint16, decoded: Option<RawCapture>, rawUs: array<uint16>)
    returns (ok: bool, length: uint16, overflow: bool)
    requires rawUs.Length == IR_MAX_RAW_LENGTH
    requires decoded.Some? ==> ValidCapture(decoded.value)
    modifies rawUs
    ensures ok <==> ready && decoded.Some? && Captured(rawTick, decoded.value).Some?
    ensures ok ==> length <= IR_MAX_RAW_LENGTH
    ensures ok ==> Some(Capture(rawUs[..length], overflow)) == Captured(rawTick, decoded.value)
  {
    length, overflow := 0, false;
    if !ready || decoded.None? {
      return false, length, overflow;
    }
    var results := decoded.value;
    overflow := results.overflow;
    var startIndex := 1;
    if results.rawlen <= startIndex {
      return false, length, overflow;
    }
    var len: uint16 := results.rawlen - startIndex;
    if len > IR_MAX_RAW_LENGTH {
      len := IR_MAX_RAW_LENGTH;
      overflow := true;
    }
    for i := 0 to len
      invariant forall j :: 0 <= j < i ==> rawUs[j] == Microseconds(results.rawbuf[1 + j], rawTick)
    {
      var us := results.rawbuf[startIndex + i] as int * rawTick as int;
      rawUs[i] := if us > 65535 then 65535 else us;
    }
    length := len;
    assert rawUs[..length] == Captured(rawTick, results).value.raw;
    ok := length > 0;
  }

  /** The number of transmissions: `repeat + 1` in sixteen bits, so that 65535 sends nothing. */
  function SendCount(repeats: uint16): uint16 {
    (repeats + 1) % 0x1_0000
  }

  /** The carrier in kHz; below 1 kHz, and where the 16-bit quotient is 0, the default 38 kHz. */
  function CarrierKHz(carrierHz: uint32): (kHz: uint16)
    ensures kHz > 0 && (carrierHz < 1000 ==> kHz == 38)
    ensures 1000 <= carrierHz < 65_536_000 ==> 1000 * kHz <= carrierHz < 1000 * (kHz + 1)
  {
    var kHz := carrierHz / 1000 % 0x1_0000;
    if carrierHz < 1000 || kHz == 0 then 38 else kHz
  }

  datatype Burst = Burst(raw: seq<uint16>, kHz: uint16)

  function Bursts(raw: seq<uint16>, carrierHz: uint32, repeats: uint16): (r: seq<Burst>)
    ensures |r| == SendCount(repeats)
  {
    seq(SendCount(repeats), i => Burst(raw, CarrierKHz(carrierHz)))
  }

  method IrSendRaw(ready: bool, raw: seq<uint16>, carrierHz: uint32, repeats: uint16) returns (sent: seq<Burst>)
    ensures sent == if ready && raw != [] then Bursts(raw, carrierHz, repeats) else []
  {
    sent := [];
    if !ready || |raw| == 0 {
      return;
    }
    var kHz: uint16 := 38;
    if carrierHz >= 1000 {
      kHz := carrierHz / 1000 % 0x1_0000;
    }
    if kHz == 0 {
      kHz := 38;
    }
    var sendCount: uint16 := (repeats + 1) % 0x1_0000;
    for i := 0 to sendCount
      invariant sent == Bursts(raw, carrierHz, repeats)[..i]
    {
      sent := sent + [Burst(raw, kHz)];
    }
  }

  // ----- esp32/speaker_driver.cpp -----

  /** Both slots of every stereo pair carry the mono sample. */
  function Duplicate(samples: seq<int16>): (slots: seq<int16>)
    ensures |slots| == 2 * |samples|
  {
    seq(2 * |samples|, i requires 0 <= i < 2 * |samples| => samples[i / 2])
  }

  function Slots(stereo: seq<int16>, side: nat): (mono: seq<int16>)
    requires side < 2
    ensures |mono| == |stereo| / 2
  {
    seq(|stereo| / 2, i requires 0 <= i < |stereo| / 2 => stereo[2 * i + side])
  }

  lemma DuplicatePairs(samples: seq<int16>)
    ensures forall i :: 0 <= i < |samples| ==> Duplicate(samples)[2 * i] == Duplicate(samples)[2 * i + 1] == samples[i]
  {
  }

  lemma DuplicateSlots(samples: seq<int16>, side: nat)
    requires side < 2
    ensures Slots(Duplicate(samples), side) == samples
  {
  }

  /** The slots written for two pieces played one after the other are the slots of the joined samples. */
  lemma DuplicateAppend(a: seq<int16>, b: seq<int16>)
    ensures Duplicate(a + b) == Duplicate(a) + Duplicate(b)
  {
    forall i | 0 <= i < 2 * (|a| + |b|) ensures Duplicate(a + b)[i] == (Duplicate(a) + Duplicate(b))[i] {
      if i >= 2 * |a| {
        assert (i - 2 * |a|) / 2 == i / 2 - |a|;
      }
    }
  }

  /** `written` says whether `i2s_write` took every byte. */
  method SpeakerPlayPcm16Mono(ready: bool, samples: seq<int16>, written: bool, stereo: array<int16>) returns (ok: bool)
    requires stereo.Length == 2 * OPUS_MAX_DECODED_SAMPLES
    modifies stereo
    ensures ok <==> ready && 1 <= |samples| <= OPUS_MAX_DECODED_SAMPLES && written
    ensures ready && 1 <= |samples| <= OPUS_MAX_DECODED_SAMPLES ==> stereo[..2 * |samples|] == Duplicate(samples)
  {
    if !ready || |samples| == 0 || |samples| > OPUS_MAX_DECODED_SAMPLES {
      return false;
    }
    for i := 0 to |samples|
      invariant forall j :: 0 <= j < 2 * i ==> stereo[j] == samples[j / 2]
    {
      stereo[i * 2] := samples[i];
      stereo[i * 2 + 1] := samples[i];
    }
    ok := written;
  }

  // ----- esp32/i2s_mic.cpp -----

  function Clamp16(value: int32): int16 {
    if value > 32767 then 32767 else if value < -32768 then -32768 else value
  }

  /** An arithmetic shift right by 14, clamped: division by 2^14 rounding down, saturated to sixteen bits. */
  function ConvertRaw(raw: int32): (sample: int16)
    ensures raw >= 0x2000_0000 ==> sample == 32767
    ensures raw < -0x2000_0000 ==> sample == -32768
    ensures -0x2000_0000 <= raw < 0x2000_0000 ==> 16384 * sample <= raw < 16384 * (sample + 1)
  {
    Clamp16(raw / 0x4000)
  }

  function Abs(x: int): nat {
    if x < 0 then -x else x
  }

  function SlotOf(raw: seq<int32>, side: nat): (samples: seq<int16>)
    requires side < 2
    ensures |samples| == |raw| / 2
  {
    seq(|raw| / 2, i requires 0 <= i < |raw| / 2 => ConvertRaw(raw[2 * i + side]))
  }

  function EnergyUpTo(samples: seq<int16>, n: nat): nat
    requires n <= |samples|
  {
    if n == 0 then 0 else EnergyUpTo(samples, n - 1) + Abs(samples[n - 1])
  }

  function Energy(samples: seq<int16>): nat {
    EnergyUpTo(samples, |samples|)
  }

  lemma {:induction false} EnergyOfFront(samples: seq<int16>, x: int16, n: nat)
    requires n <= |samples|
    ensures EnergyUpTo(samples + [x], n) == EnergyUpTo(samples, n)
  {
    if n > 0 {
      EnergyOfFront(samples, x, n - 1);
    }
  }

  /** The energy of a slot is the sum of its samples' magnitudes. */
  lemma EnergyExactly(samples: seq<int16>, x: int16)
    ensures Energy([]) == 0
    ensures Energy(samples + [x]) == Energy(samples) + if x < 0 then -(x as int) else x
  {
    EnergyOfFront(samples, x, |samples|);
  }

  /** Sample `i` of a side is its `i`-th word, in sixteen bits. */
  lemma SlotExactly(raw: seq<int32>, side: nat, i: nat)
    requires side < 2 && i < |raw| / 2
    ensures var word, sample := raw[2 * i + side], SlotOf(raw, side)[i];
            if word as int >= 0x2000_0000 then sample == 32767
            else if word < -0x2000_0000 then sample == -32768
            else 16384 * sample as int <= word as int < 16384 * (sample as int + 1)
  {
  }

  /** The slot with the larger energy; the first one on a tie. */
  function LouderSlot(raw: seq<int32>): (samples: seq<int16>)
    ensures |samples| == |raw| / 2
    ensures Energy(SlotOf(raw, 0)) >= Energy(SlotOf(raw, 1)) ==> samples == SlotOf(raw, 0)
    ensures samples == SlotOf(raw, 0) || samples == SlotOf(raw, 1)
    ensures Energy(samples) == Max(Energy(SlotOf(raw, 0)), Energy(SlotOf(raw, 1)))
  {
    if Energy(SlotOf(raw, 1)) > Energy(SlotOf(raw, 0)) then SlotOf(raw, 1) else SlotOf(raw, 0)
  }

  /** `raw` is what a complete I2S read delivered, or None. */
  method MicReadFrame(ready: bool, raw: Option<seq<int32>>, outSamples: array<int16>) returns (ok: bool)
    requires raw.Some? ==> |raw.value| == 2 * outSamples.Length
    modifies outSamples
    ensures ok <==> ready && 1 <= outSamples.Length <= MIC_FRAME_SAMPLES && raw.Some?
    ensures ok ==> outSamples[..] == LouderSlot(raw.value)
  {
    var n := outSamples.Length;
    if !ready || n == 0 || n > MIC_FRAME_SAMPLES || raw.None? {
      return false;
    }
    var words := raw.value;
    var tmp0, tmp1 := new int16[n], new int16[n];
    var energy0, energy1 := Deinterleave(words, tmp0, tmp1);
    if energy1 > energy0 {
      CopyFrame(tmp1, outSamples);
    } else {
      CopyFrame(tmp0, outSamples);
    }
    ok := true;
  }

  method Deinterleave(raw: seq<int32>, tmp0: array<int16>, tmp1: array<int16>) returns (energy0: nat, energy1: nat)
    requires |raw| == 2 * tmp0.Length == 2 * tmp1.Length && tmp0 != tmp1
    modifies tmp0, tmp1
    ensures tmp0[..] == SlotOf(raw, 0) && energy0 == Energy(SlotOf(raw, 0))
    ensures tmp1[..] == SlotOf(raw, 1) && energy1 == Energy(SlotOf(raw, 1))
  {
    energy0, energy1 := 0, 0;
    ghost var c0, c1 := SlotOf(raw, 0), SlotOf(raw, 1);
    for i := 0 to tmp0.Length
      invariant forall j :: 0 <= j < i ==> tmp0[j] == c0[j] && tmp1[j] == c1[j]
      invariant energy0 == EnergyUpTo(c0, i) && energy1 == EnergyUpTo(c1, i)
    {
      var a, b := ConvertRaw(raw[i * 2]), ConvertRaw(raw[i * 2 + 1]);
      tmp0[i], tmp1[i] := a, b;
      energy0 := energy0 + Abs(a);
      energy1 := energy1 + Abs(b);
    }
    assert tmp0[..] == c0 && tmp1[..] == c1;
  }

  method CopyFrame(selected: array<int16>, outSamples: array<int16>)
    requires selected.Length == outSamples.Length && selected != outSamples
    modifies outSamples
    ensures outSamples[..] == selected[..]
  {
    for i := 0 to outSamples.Length
      invariant forall j :: 0 <= j < i ==> outSamples[j] == selected[j]
    {
      outSamples[i] := selected[i];
    }
  }
}
