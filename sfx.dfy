/**
 * SFX::SFX(const char *path): the engine's WAV reader.  It checks the RIFF
 * and WAVE signatures, requires a 16-byte fmt chunk of PCM audio, reads the
 * channel count, sample rate, sample width and data size at the fixed
 * offsets of the canonical 44-byte header, and hands the samples to
 * alBufferData with a format chosen from the channel count and width.
 */
module EngineSfx {
  import opened Bytes
  import opened Wrappers
  import opened FileIO

  const RIFF: seq<Byte> := [0x52, 0x49, 0x46, 0x46]
  const WAVE: seq<Byte> := [0x57, 0x41, 0x56, 0x45]
  const FMT: seq<Byte> := [0x66, 0x6D, 0x74, 0x20]
  const DATA: seq<Byte> := [0x64, 0x61, 0x74, 0x61]

  /** Offset of the first sample in the canonical header. */
  const HEADER_SIZE: nat := 44

  /** AL_FORMAT_MONO8; MONO16, STEREO8 and STEREO16 follow it. */
  const AL_FORMAT_MONO8: int := 0x1100
  const AL_FORMAT_MONO16: int := 0x1101
  const AL_FORMAT_STEREO8: int := 0x1102
  const AL_FORMAT_STEREO16: int := 0x1103

  /** Debug::showError reasons WRONG_SIGNATURE and UNSUPPORTED_FORMAT; a short fread is Truncated (see README). */
  datatype SfxError = WrongSignature | UnsupportedFormat | Truncated

  /** What alBufferData is given. */
  datatype SoundBuffer = SoundBuffer(format: int, samples: seq<Byte>, sampleRate: U32)

  /** MONO8, plus 2 for two channels, plus 1 for 16-bit samples. */
  function AlFormat(channels: U16, bitsPerSample: U16): (format: int)
    ensures format in {AL_FORMAT_MONO8, AL_FORMAT_MONO16, AL_FORMAT_STEREO8, AL_FORMAT_STEREO16}
    ensures format in {AL_FORMAT_STEREO8, AL_FORMAT_STEREO16} <==> channels == 2
    ensures format in {AL_FORMAT_MONO16, AL_FORMAT_STEREO16} <==> bitsPerSample == 16
  {
    var format := AL_FORMAT_MONO8;
    var format := if channels == 2 then format + 2 else format;
    if bitsPerSample == 16 then format + 1 else format
  }

  function U16At(data: seq<Byte>, off: nat): U16
    requires off + 2 <= |data|
  {
    FromLE16(data[off..off + 2])
  }

  function U32At(data: seq<Byte>, off: nat): U32
    requires off + 4 <= |data|
  {
    FromLE32(data[off..off + 4])
  }

  /** The constructor on a whole file's bytes, reading in file order. */
  function ParseWav(data: seq<Byte>): (r: Result<SoundBuffer, SfxError>)
    ensures r == Err(WrongSignature) <==>
      (|data| >= 4 && data[..4] != RIFF) || (|data| >= 12 && data[..4] == RIFF && data[8..12] != WAVE)
    ensures r.Ok? ==> |data| >= HEADER_SIZE && |r.value.samples| == U32At(data, 40)
  {
    if |data| < 4 then Err(Truncated)
    else if data[..4] != RIFF then Err(WrongSignature)
    else if |data| < 12 then Err(Truncated)
    else if data[8..12] != WAVE then Err(WrongSignature)
    else if |data| < 20 then Err(Truncated)
    else if U32At(data, 16) != 16 then Err(UnsupportedFormat)
    else if |data| < 22 then Err(Truncated)
    else if U16At(data, 20) != 1 then Err(UnsupportedFormat)
    else WavFields(data)
  }

  /** The fields after the PCM tag: channels, rate, width, data size, then the samples. */
  function WavFields(data: seq<Byte>): (r: Result<SoundBuffer, SfxError>)
    ensures r.Ok? ==> |data| >= HEADER_SIZE && |r.value.samples| == U32At(data, 40)
  {
    if |data| < HEADER_SIZE then Err(Truncated)
    else
      var size := U32At(data, 40);
      if |data| < HEADER_SIZE + size then Err(Truncated)
      else Ok(SoundBuffer(AlFormat(U16At(data, 22), U16At(data, 34)), data[HEADER_SIZE..HEADER_SIZE + size], U32At(data, 24)))
  }

  /**
   * The canonical header the reader expects, followed by the samples: the
   * RIFF size, a 16-byte PCM fmt chunk and a data chunk.
   */
  function EncodeWav(channels: U16, sampleRate: U32, byteRate: U32, blockAlign: U16, bitsPerSample: U16, samples: seq<Byte>): (b: seq<Byte>)
    requires |samples| + 36 < 0x1_0000_0000
    ensures |b| == HEADER_SIZE + |samples|
  {
    RIFF + LE32(36 + |samples|) + WAVE
    + FMT + LE32(16) + LE16(1) + LE16(channels) + LE32(sampleRate) + LE32(byteRate) + LE16(blockAlign) + LE16(bitsPerSample)
    + DATA + LE32(|samples|)
    + samples
  }

  /** Where each field of EncodeWav lands. */
  lemma EncodeWavLayout(channels: U16, sampleRate: U32, byteRate: U32, blockAlign: U16, bitsPerSample: U16, samples: seq<Byte>)
    requires |samples| + 36 < 0x1_0000_0000
    ensures var b := EncodeWav(channels, sampleRate, byteRate, blockAlign, bitsPerSample, samples);
      && b[..4] == RIFF && b[8..12] == WAVE
      && b[16..20] == LE32(16) && b[20..22] == LE16(1) && b[22..24] == LE16(channels)
      && b[24..28] == LE32(sampleRate) && b[34..36] == LE16(bitsPerSample)
      && b[40..44] == LE32(|samples|) && b[44..] == samples
  {
    var head := RIFF + LE32(36 + |samples|) + WAVE
      + FMT + LE32(16) + LE16(1) + LE16(channels) + LE32(sampleRate) + LE32(byteRate) + LE16(blockAlign) + LE16(bitsPerSample)
      + DATA + LE32(|samples|);
    var b := EncodeWav(channels, sampleRate, byteRate, blockAlign, bitsPerSample, samples);
    assert b == head + samples;
    assert |head| == 44;
    assert b[44..] == samples;
    assert b[..44] == head;
  }

  /**
   * Round trip: a canonical PCM file is accepted and yields its samples,
   * its sample rate and the format of its channel count and width.
   */
  lemma ParseEncodedWav(channels: U16, sampleRate: U32, byteRate: U32, blockAlign: U16, bitsPerSample: U16, samples: seq<Byte>)
    requires |samples| + 36 < 0x1_0000_0000
    ensures ParseWav(EncodeWav(channels, sampleRate, byteRate, blockAlign, bitsPerSample, samples))
      == Ok(SoundBuffer(AlFormat(channels, bitsPerSample), samples, sampleRate))
  {
    var b := EncodeWav(channels, sampleRate, byteRate, blockAlign, bitsPerSample, samples);
    EncodeWavLayout(channels, sampleRate, byteRate, blockAlign, bitsPerSample, samples);
    assert U32At(b, 16) == 16;
    assert U16At(b, 20) == 1;
    assert U16At(b, 22) == channels;
    assert U32At(b, 24) == sampleRate;
    assert U16At(b, 34) == bitsPerSample;
    assert U32At(b, 40) == |samples|;
    assert b[44..44 + |samples|] == samples;
  }

  /** A file whose fmt chunk is not 16 bytes of PCM is refused, whatever follows. */
  lemma OnlyPcm(data: seq<Byte>)
    requires |data| >= 22 && data[..4] == RIFF && data[8..12] == WAVE
    ensures ParseWav(data) == Err(UnsupportedFormat) <==> U32At(data, 16) != 16 || U16At(data, 20) != 1
  {
  }

  /** SFX::SFX on an opened file: reads and seeks in the order of the source. */
  method LoadSfx(f: FileReader) returns (r: Result<SoundBuffer, SfxError>)
    requires f.pos == 0
    modifies f
    ensures r == ParseWav(f.contents)
  {
    var sign := f.Read(4);
    if sign.None? { return Err(Truncated); }
    if sign.value != RIFF { return Err(WrongSignature); }
    f.Skip(4);
    sign := f.Read(4);
    if sign.None? { return Err(Truncated); }
    if sign.value != WAVE { return Err(WrongSignature); }
    f.Skip(4);
    var a := f.ReadU32();
    if a.None? { return Err(Truncated); }
    if a.value != 16 { return Err(UnsupportedFormat); }
    var pcm := f.ReadU16();
    if pcm.None? { return Err(Truncated); }
    if pcm.value != 1 { return Err(UnsupportedFormat); }
    r := LoadFields(f);
  }

  /** The reads after the PCM tag. */
  method LoadFields(f: FileReader) returns (r: Result<SoundBuffer, SfxError>)
    requires f.pos == 22 <= |f.contents|
    modifies f
    ensures r == WavFields(f.contents)
  {
    var nchannels := f.ReadU16();
    var samplerate := f.ReadU32();
    f.Skip(6);
    var bitspersample := f.ReadU16();
    f.Skip(4);
    var dataSize := f.ReadU32();
    if nchannels.None? || samplerate.None? || bitspersample.None? || dataSize.None? { return Err(Truncated); }
    var samples := f.Read(dataSize.value);
    if samples.None? { return Err(Truncated); }
    return Ok(SoundBuffer(AlFormat(nchannels.value, bitspersample.value), samples.value, samplerate.value));
  }
}
