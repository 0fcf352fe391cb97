/**
 * The audio codec of the transcription pipeline: the raw PCM reader that turns
 * a capture file into the float samples the speech engine takes, and the
 * metadata probes with their documented fallbacks.
 *
 * A file is its byte content (`None` when it is missing or cannot be opened:
 * the existence test and the reader's catch both give null). The reader never
 * looks at the header: it drops the first 44 bytes and reads what follows as
 * little-endian signed 16-bit samples, each divided by 32768.
 */
module AudioProcessor {
  import opened Util
  import Decimal

  type Byte = b: int | 0 <= b < 256
  type Int16 = s: int | -0x8000 <= s < 0x8000

  /** Size of the canonical RIFF/WAVE PCM header that the reader skips. */
  const HeaderSize: nat := 44
  const BytesPerSample: nat := 2
  /** The rate the speech engine expects, and the fallback of the probe. */
  const WhisperSampleRate: int := 16000
  const WhisperChannels: int := 1

  /** `ByteBuffer.getShort` in little-endian order: two's complement of `lo + 256 * hi`. */
  function LittleEndianInt16(lo: Byte, hi: Byte): Int16 {
    var u := lo + 256 * hi;
    if u < 0x8000 then u else u - 0x1_0000
  }

  /** The two bytes a 16-bit sample is stored as, low byte first. */
  function LowByte(s: Int16): Byte {
    (s % 0x1_0000) % 256
  }

  function HighByte(s: Int16): Byte {
    (s % 0x1_0000) / 256
  }

  /** `sample.toFloat() / 32768.0f`; exact in float32, so a real is faithful. */
  function Normalize(s: Int16): (x: real)
    ensures -1.0 <= x < 1.0
    ensures x == -1.0 <==> s == -0x8000
  {
    s as real / 32768.0
  }

  /** The reference decoding of a data section: consecutive byte pairs, a lone trailing byte dropped. */
  function PcmSamples(data: seq<Byte>): (r: seq<real>)
    ensures |r| == |data| / BytesPerSample
  {
    if |data| < 2 then [] else [Normalize(LittleEndianInt16(data[0], data[1]))] + PcmSamples(data[2..])
  }

  /** What `readWavFile` yields for a file's content: `None` unless it is longer than the header. */
  function DecodeWav(bytes: seq<Byte>): (r: Option<seq<real>>)
    ensures r.None? <==> |bytes| <= HeaderSize
    ensures r.Some? ==> |r.value| == (|bytes| - HeaderSize) / BytesPerSample
  {
    if |bytes| <= HeaderSize then None else Some(PcmSamples(bytes[HeaderSize..]))
  }

  /** The i-th decoded sample is built from the i-th byte pair of the data. */
  lemma {:induction false} PcmSamplesAt(data: seq<Byte>, i: nat)
    requires i < |data| / 2
    ensures PcmSamples(data)[i] == Normalize(LittleEndianInt16(data[2 * i], data[2 * i + 1]))
  {
    if i > 0 {
      PcmSamplesAt(data[2..], i - 1);
    }
  }

  /**
   * `readWavFile`: allocate the float buffer and fill it sample by sample
   * while the byte cursor advances two bytes at a time.
   */
  method ReadWavFile(bytes: seq<Byte>) returns (r: Option<seq<real>>)
    ensures r == DecodeWav(bytes)
  {
    if |bytes| <= HeaderSize {
      return None;
    }
    var audioDataSize := |bytes| - HeaderSize;
    var sampleCount := audioDataSize / BytesPerSample;
    var audioData := new real[sampleCount];
    var cursor := HeaderSize;
    for i := 0 to sampleCount
      invariant cursor == HeaderSize + 2 * i
      invariant forall k :: 0 <= k < i ==>
        audioData[k] == Normalize(LittleEndianInt16(bytes[HeaderSize + 2 * k], bytes[HeaderSize + 2 * k + 1]))
    {
      var sample := LittleEndianInt16(bytes[cursor], bytes[cursor + 1]);
      cursor := cursor + 2;
      audioData[i] := Normalize(sample);
    }
    var data := bytes[HeaderSize..];
    forall k | 0 <= k < sampleCount
      ensures audioData[k] == PcmSamples(data)[k]
    {
      PcmSamplesAt(data, k);
    }
    assert audioData[..] == PcmSamples(data);
    r := Some(audioData[..]);
  }

  /**
   * `convertAudioForWhisper`: a missing or unreadable file is `null`;
   * otherwise the reader's result is passed on.
   */
  method ConvertAudioForWhisper(file: Option<seq<Byte>>) returns (r: Option<seq<real>>)
    ensures file.None? ==> r.None?
    ensures file.Some? ==> r == DecodeWav(file.value)
  {
    if file.None? {
      return None;
    }
    r := ReadWavFile(file.value);
  }

  /** Sample i of a decodable file is the signed little-endian pair at offsets 44 + 2i and 45 + 2i. */
  lemma DecodeWavSampleAt(bytes: seq<Byte>, i: nat)
    requires |bytes| > HeaderSize && i < (|bytes| - HeaderSize) / 2
    ensures DecodeWav(bytes).value[i]
         == Normalize(LittleEndianInt16(bytes[HeaderSize + 2 * i], bytes[HeaderSize + 2 * i + 1]))
  {
    PcmSamplesAt(bytes[HeaderSize..], i);
  }

  /** Every decoded sample lies in [-1, 1), and -1 appears only for the raw pair 0x00, 0x80. */
  lemma DecodeWavRange(bytes: seq<Byte>, i: nat)
    requires |bytes| > HeaderSize && i < (|bytes| - HeaderSize) / 2
    ensures -1.0 <= DecodeWav(bytes).value[i] < 1.0
    ensures DecodeWav(bytes).value[i] == -1.0
        <==> bytes[HeaderSize + 2 * i] == 0x00 && bytes[HeaderSize + 2 * i + 1] == 0x80
  {
    DecodeWavSampleAt(bytes, i);
  }

  /** The 44 header bytes never influence the result: there is no RIFF/WAVE check. */
  lemma HeaderIgnored(a: seq<Byte>, b: seq<Byte>)
    requires |a| == |b| && |a| >= HeaderSize && a[HeaderSize..] == b[HeaderSize..]
    ensures DecodeWav(a) == DecodeWav(b)
  {
  }

  lemma {:induction false} PcmSamplesDropsOddByte(data: seq<Byte>, x: Byte)
    requires |data| % 2 == 0
    ensures PcmSamples(data + [x]) == PcmSamples(data)
    decreases |data|
  {
    if |data| >= 2 {
      assert (data + [x])[2..] == data[2..] + [x];
      PcmSamplesDropsOddByte(data[2..], x);
    }
  }

  /** A trailing odd byte is ignored. */
  lemma TrailingByteIgnored(bytes: seq<Byte>, x: Byte)
    requires |bytes| > HeaderSize && (|bytes| - HeaderSize) % 2 == 0
    ensures DecodeWav(bytes + [x]) == DecodeWav(bytes)
  {
    assert (bytes + [x])[HeaderSize..] == bytes[HeaderSize..] + [x];
    PcmSamplesDropsOddByte(bytes[HeaderSize..], x);
  }

  /** The little-endian reading is a bijection between byte pairs and 16-bit samples. */
  lemma Int16BytesRoundTrip(s: Int16)
    ensures LittleEndianInt16(LowByte(s), HighByte(s)) == s
  {
  }

  lemma BytesInt16RoundTrip(lo: Byte, hi: Byte)
    ensures LowByte(LittleEndianInt16(lo, hi)) == lo && HighByte(LittleEndianInt16(lo, hi)) == hi
  {
  }

  /** The data section that stores the given samples, in the layout the reader expects. */
  function EncodePcm(samples: seq<Int16>): (r: seq<Byte>)
    ensures |r| == 2 * |samples|
  {
    if samples == [] then [] else [LowByte(samples[0]), HighByte(samples[0])] + EncodePcm(samples[1..])
  }

  function NormalizeAll(samples: seq<Int16>): (r: seq<real>)
    ensures |r| == |samples|
    ensures forall i :: 0 <= i < |samples| ==> r[i] == Normalize(samples[i])
  {
    if samples == [] then [] else [Normalize(samples[0])] + NormalizeAll(samples[1..])
  }

  lemma {:induction false} PcmRoundTrip(samples: seq<Int16>)
    ensures PcmSamples(EncodePcm(samples)) == NormalizeAll(samples)
  {
    if samples != [] {
      var e := EncodePcm(samples);
      Int16BytesRoundTrip(samples[0]);
      assert e[2..] == EncodePcm(samples[1..]);
      PcmRoundTrip(samples[1..]);
    }
  }

  /**
   * Any 44-byte header followed by the encoded samples decodes to those
   * samples divided by 32768, provided there is at least one sample; the
   * header alone (a valid file with no audio) is rejected, because the size
   * test is `<=`.
   */
  lemma WavRoundTrip(header: seq<Byte>, samples: seq<Int16>)
    requires |header| == HeaderSize
    ensures samples != [] ==> DecodeWav(header + EncodePcm(samples)) == Some(NormalizeAll(samples))
    ensures samples == [] ==> DecodeWav(header + EncodePcm(samples)) == None
  {
    assert (header + EncodePcm(samples))[HeaderSize..] == EncodePcm(samples);
    PcmRoundTrip(samples);
  }

  /** What `MediaMetadataRetriever` gives for one key of a file. */
  datatype Metadata =
    | RetrieverFailed      // setDataSource or extractMetadata threw
    | KeyAbsent            // extractMetadata returned null
    | KeyValue(text: string)

  /** `getAudioSampleRate`: the parsed rate, or 16000 when absent, unparsable or on any failure. */
  function GetAudioSampleRate(meta: Metadata): (rate: int)
    ensures meta.KeyValue? && Decimal.ToInt(meta.text).Some? ==> rate == Decimal.ToInt(meta.text).value
    ensures !(meta.KeyValue? && Decimal.ToInt(meta.text).Some?) ==> rate == WhisperSampleRate
    ensures Decimal.IntMin <= rate <= Decimal.IntMax
  {
    match meta
    case RetrieverFailed => WhisperSampleRate
    case KeyAbsent => WhisperSampleRate
    case KeyValue(text) => Decimal.ToInt(text).GetOr(WhisperSampleRate)
  }

  /** `getAudioDuration`: the parsed duration, or 0 when absent, unparsable or on any failure. */
  function GetAudioDuration(meta: Metadata): (duration: int)
    ensures meta.KeyValue? && Decimal.ToLong(meta.text).Some? ==> duration == Decimal.ToLong(meta.text).value
    ensures !(meta.KeyValue? && Decimal.ToLong(meta.text).Some?) ==> duration == 0
    ensures Decimal.LongMin <= duration <= Decimal.LongMax
  {
    match meta
    case RetrieverFailed => 0
    case KeyAbsent => 0
    case KeyValue(text) => Decimal.ToLong(text).GetOr(0)
  }

  /** A rate the retriever reports as decimal text is what the probe returns. */
  lemma SampleRateReadsReportedValue(rate: int)
    requires Decimal.IntMin <= rate <= Decimal.IntMax
    ensures GetAudioSampleRate(KeyValue(Decimal.FormatInt(rate, 0))) == rate
  {
    Decimal.ParseFormatRoundTrip(rate, Decimal.IntMin, Decimal.IntMax);
  }
}
