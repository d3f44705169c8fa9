/** The 44-byte WAV header and its size fields (firmware/esp32-recorder/src/audio/WavWriter.cpp):
    RIFF WAVE PCM, "Multimedia Programming Interface and Data Specifications 1.0", section
    "Waveform Audio File Format (WAVE)". */
module Wav {
  import opened SdQueue

  const HEADER_BYTES := 44
  const BITS_PER_SAMPLE := 16
  const U16 := 0x1_0000
  const U32 := 0x1_0000_0000

  function Le16(v: nat): Bytes {
    [v % 256, v / 256 % 256]
  }

  function Le32(v: nat): Bytes {
    [v % 256, v / 256 % 256, v / 65536 % 256, v / 16777216 % 256]
  }

  function ReadLe32(b: Bytes, at: nat): nat
    requires at + 4 <= |b|
  {
    b[at] as int + 256 * b[at + 1] as int + 65536 * b[at + 2] as int + 16777216 * b[at + 3] as int
  }

  function ReadLe16(b: Bytes, at: nat): nat
    requires at + 2 <= |b|
  {
    b[at] as int + 256 * b[at + 1] as int
  }

  lemma LowBytes(v: nat)
    ensures v / 65536 == v / 256 / 256 && v % 65536 == 256 * (v / 256 % 256) + v % 256
  {
    var q, p := v / 256, v / 256 / 256;
    assert v == 65536 * p + (256 * (q % 256) + v % 256);
  }

  lemma LowHalves(v: nat)
    ensures v % 4294967296 == 65536 * (v / 65536 % 65536) + v % 65536
  {
    var q := v / 65536;
    assert v == 4294967296 * (q / 65536) + (65536 * (q % 65536) + v % 65536);
  }

  lemma ThirdByte(v: nat)
    ensures v / 16777216 == v / 65536 / 256
  {
    var q := v / 65536;
    assert v == 16777216 * (q / 256) + (65536 * (q % 256) + v % 65536);
  }

  /** The bytes hold the low 16 bits. */
  lemma Le16ReadsBack(v: nat)
    ensures ReadLe16(Le16(v), 0) == v % U16
  {
    LowBytes(v);
  }

  /** The bytes hold the low 32 bits. */
  lemma Le32ReadsBack(v: nat)
    ensures ReadLe32(Le32(v), 0) == v % U32
  {
    LowBytes(v);
    LowBytes(v / 65536);
    LowHalves(v);
    ThirdByte(v);
  }

  function RiffChunkSize(dataBytes: nat): nat {
    (36 + dataBytes) % U32
  }

  const RIFF: Bytes := [0x52, 0x49, 0x46, 0x46]
  const WAVE: Bytes := [0x57, 0x41, 0x56, 0x45]
  const FMT: Bytes := [0x66, 0x6d, 0x74, 0x20]
  const DATA: Bytes := [0x64, 0x61, 0x74, 0x61]

  function BlockAlign(channels: nat): nat {
    channels * 2 % U16
  }

  /** Bytes 0 to 20: the RIFF chunk and the start of the format chunk. */
  function RiffPart(dataBytes: nat): (h: Bytes)
    ensures |h| == 20
  {
    RIFF + Le32(RiffChunkSize(dataBytes)) + WAVE + FMT + Le32(16)
  }

  /** Bytes 20 to 36: the format. */
  function FormatPart(sampleRate: nat, channels: nat): (h: Bytes)
    ensures |h| == 16
  {
    Le16(1) + Le16(channels) + Le32(sampleRate)
    + Le32(sampleRate * BlockAlign(channels) % U32) + Le16(BlockAlign(channels)) + Le16(BITS_PER_SAMPLE)
  }

  function WavHeader(sampleRate: nat, channels: nat, dataBytes: nat): (h: Bytes)
    ensures |h| == HEADER_BYTES
  {
    RiffPart(dataBytes) + FormatPart(sampleRate, channels) + (DATA + Le32(dataBytes))
  }

  /** The size fields overwritten, everything else kept. */
  function Patched(b: Bytes, dataBytes: nat): (p: Bytes)
    requires |b| >= HEADER_BYTES
    ensures |p| == |b|
  {
    b[..4] + Le32(RiffChunkSize(dataBytes)) + b[8..40] + Le32(dataBytes) + b[44..]
  }

  /** Headers of one format differ in the size fields only, so patching the sizes of a streamed file
      gives what writing the right header first would have given. */
  lemma PatchingIsRewriting(sampleRate: nat, channels: nat, before: nat, dataBytes: nat, body: Bytes)
    ensures Patched(WavHeader(sampleRate, channels, before) + body, dataBytes)
         == WavHeader(sampleRate, channels, dataBytes) + body
  {
    var r, f := RiffPart(before), FormatPart(sampleRate, channels);
    RiffFields(before);
    RiffFields(dataBytes);
    assert RiffPart(dataBytes) == r[..4] + Le32(RiffChunkSize(dataBytes)) + r[8..20];
    PatchParts(r, f, DATA + Le32(before), body, dataBytes);
    assert (DATA + Le32(before))[..4] == DATA;
  }

  lemma PatchParts(r: Bytes, f: Bytes, d: Bytes, body: Bytes, dataBytes: nat)
    requires |r| == 20 && |f| == 16 && |d| == 8
    ensures Patched(r + f + d + body, dataBytes)
         == (r[..4] + Le32(RiffChunkSize(dataBytes)) + r[8..20]) + f + (d[..4] + Le32(dataBytes)) + body
  {
  }

  /** The seek-and-write order of a file patch. */
  lemma WritingBothSizesPatches(b: Bytes, dataBytes: nat)
    requires |b| >= HEADER_BYTES
    ensures WriteAt(WriteAt(b, 4, Le32(RiffChunkSize(dataBytes))), 40, Le32(dataBytes)) == Patched(b, dataBytes)
  {
  }

  /** Where each field of the header stands. */
  lemma HeaderFields(sampleRate: nat, channels: nat, dataBytes: nat)
    ensures var h := WavHeader(sampleRate, channels, dataBytes);
            && h[0..4] == RIFF && h[4..8] == Le32(RiffChunkSize(dataBytes)) && h[8..12] == WAVE
            && h[12..16] == FMT && h[16..20] == Le32(16) && h[20..22] == Le16(1)
            && h[22..24] == Le16(channels) && h[24..28] == Le32(sampleRate)
            && h[28..32] == Le32(sampleRate * BlockAlign(channels) % U32)
            && h[32..34] == Le16(BlockAlign(channels)) && h[34..36] == Le16(BITS_PER_SAMPLE)
            && h[36..40] == DATA && h[40..44] == Le32(dataBytes)
  {
    RiffFields(dataBytes);
    FormatFields(sampleRate, channels);
    PartFields(RiffPart(dataBytes), FormatPart(sampleRate, channels), DATA + Le32(dataBytes));
    assert (DATA + Le32(dataBytes))[..4] == DATA && (DATA + Le32(dataBytes))[4..8] == Le32(dataBytes);
  }

  lemma RiffFields(dataBytes: nat)
    ensures var r := RiffPart(dataBytes);
            && r[0..4] == RIFF && r[4..8] == Le32(RiffChunkSize(dataBytes)) && r[8..12] == WAVE
            && r[12..16] == FMT && r[16..20] == Le32(16)
  {
  }

  lemma FormatFields(sampleRate: nat, channels: nat)
    ensures var f := FormatPart(sampleRate, channels);
            && f[0..2] == Le16(1) && f[2..4] == Le16(channels) && f[4..8] == Le32(sampleRate)
            && f[8..12] == Le32(sampleRate * BlockAlign(channels) % U32)
            && f[12..14] == Le16(BlockAlign(channels)) && f[14..16] == Le16(BITS_PER_SAMPLE)
  {
  }

  lemma PartFields(r: Bytes, f: Bytes, d: Bytes)
    requires |r| == 20 && |f| == 16 && |d| == 8
    ensures var h := r + f + d;
            && h[0..4] == r[0..4] && h[4..8] == r[4..8] && h[8..12] == r[8..12]
            && h[12..16] == r[12..16] && h[16..20] == r[16..20]
            && h[20..22] == f[0..2] && h[22..24] == f[2..4] && h[24..28] == f[4..8]
            && h[28..32] == f[8..12] && h[32..34] == f[12..14] && h[34..36] == f[14..16]
            && h[36..40] == d[..4] && h[40..44] == d[4..8]
  {
  }

  lemma ReadSlice(f: Bytes, at: nat, v: nat)
    requires at + 4 <= |f| && f[at..at + 4] == Le32(v)
    ensures ReadLe32(f, at) == v % U32
  {
    assert forall i :: 0 <= i < 4 ==> f[at + i] == Le32(v)[i];
    Le32ReadsBack(v);
  }

  lemma ReadBehindHeader(h: Bytes, body: Bytes, at: nat, v: nat)
    requires at + 4 <= |h| && h[at..at + 4] == Le32(v)
    ensures ReadLe32(h + body, at) == v % U32
  {
    assert (h + body)[at..at + 4] == h[at..at + 4];
    ReadSlice(h + body, at, v);
  }

  lemma ReadShort(f: Bytes, at: nat, v: nat)
    requires at + 2 <= |f| && f[at..at + 2] == Le16(v)
    ensures ReadLe16(f, at) == v % U16
  {
    assert forall i :: 0 <= i < 2 ==> f[at + i] == Le16(v)[i];
    Le16ReadsBack(v);
  }

  /** What a reader of the format finds in a header, or in a file that starts with one: PCM, the number
      of channels, the rate, the bytes per second and per frame, and 16 bits per sample. */
  ghost predicate Announces(f: Bytes, sampleRate: nat, channels: nat) {
    && |f| >= 44
    && f[0..4] == [0x52, 0x49, 0x46, 0x46] && f[8..12] == [0x57, 0x41, 0x56, 0x45]
    && f[12..16] == [0x66, 0x6d, 0x74, 0x20] && f[36..40] == [0x64, 0x61, 0x74, 0x61]
    && ReadLe32(f, 16) == 16 && ReadLe16(f, 20) == 1 && ReadLe16(f, 34) == 16
    && (channels < 0x1_0000 ==> ReadLe16(f, 22) == channels)
    && (2 * channels < 0x1_0000 ==> ReadLe16(f, 32) == 2 * channels)
    && (sampleRate < 0x1_0000_0000 ==> ReadLe32(f, 24) == sampleRate)
    && (2 * channels < 0x1_0000 && sampleRate * (2 * channels) < 0x1_0000_0000 ==>
          ReadLe32(f, 28) == sampleRate * (2 * channels))
  }

  /** A field of the header read from a file that starts with it. */
  lemma ReadHalf(h: Bytes, body: Bytes, at: nat, v: nat)
    requires at + 2 <= |h| && h[at..at + 2] == Le16(v)
    ensures v < U16 ==> ReadLe16(h + body, at) == v
  {
    assert (h + body)[at..at + 2] == h[at..at + 2];
    ReadShort(h + body, at, v);
  }

  lemma ReadWord(h: Bytes, body: Bytes, at: nat, v: nat)
    requires at + 4 <= |h| && h[at..at + 4] == Le32(v)
    ensures v < U32 ==> ReadLe32(h + body, at) == v
  {
    ReadBehindHeader(h, body, at, v);
  }

  lemma TagsAreThere(sampleRate: nat, channels: nat, dataBytes: nat, body: Bytes, f: Bytes)
    requires f == WavHeader(sampleRate, channels, dataBytes) + body
    ensures |f| >= 44 && f[0..4] == RIFF && f[8..12] == WAVE && f[12..16] == FMT && f[36..40] == DATA
    ensures ReadLe32(f, 16) == 16 && ReadLe16(f, 20) == 1 && ReadLe16(f, 34) == 16
  {
    var h := WavHeader(sampleRate, channels, dataBytes);
    HeaderFields(sampleRate, channels, dataBytes);
    assert f[0..4] == h[0..4] && f[8..12] == h[8..12] && f[12..16] == h[12..16] && f[36..40] == h[36..40];
    ReadWord(h, body, 16, 16);
    ReadHalf(h, body, 20, 1);
    ReadHalf(h, body, 34, 16);
  }

  lemma FormatIsThere(h: Bytes, body: Bytes, sampleRate: nat, channels: nat, align: nat, rate: nat)
    requires |h| == 44 && h[22..24] == Le16(channels) && h[24..28] == Le32(sampleRate)
    requires h[28..32] == Le32(rate) && h[32..34] == Le16(align)
    ensures var f := h + body;
            && (channels < U16 ==> ReadLe16(f, 22) == channels) && (sampleRate < U32 ==> ReadLe32(f, 24) == sampleRate)
            && (rate < U32 ==> ReadLe32(f, 28) == rate) && (align < U16 ==> ReadLe16(f, 32) == align)
  {
    ReadHalf(h, body, 22, channels);
    ReadWord(h, body, 24, sampleRate);
    ReadWord(h, body, 28, rate);
    ReadHalf(h, body, 32, align);
  }

  lemma Rates(sampleRate: nat, channels: nat)
    ensures 2 * channels < U16 ==> BlockAlign(channels) == 2 * channels
    ensures 2 * channels < U16 && sampleRate * (2 * channels) < U32 ==>
              sampleRate * BlockAlign(channels) % U32 == sampleRate * (2 * channels)
  {
  }

  lemma HeaderAnnounces(sampleRate: nat, channels: nat, dataBytes: nat, body: Bytes)
    ensures Announces(WavHeader(sampleRate, channels, dataBytes) + body, sampleRate, channels)
  {
    var h := WavHeader(sampleRate, channels, dataBytes);
    TagsAreThere(sampleRate, channels, dataBytes, body, h + body);
    HeaderFields(sampleRate, channels, dataBytes);
    Rates(sampleRate, channels);
    FormatAnnounces(h, body, sampleRate, channels, BlockAlign(channels), sampleRate * BlockAlign(channels) % U32,
                    sampleRate * (2 * channels));
  }

  /** `full`: the byte rate before it is cut to 32 bits. */
  lemma FormatAnnounces(h: Bytes, body: Bytes, sampleRate: nat, channels: nat, align: nat, rate: nat, full: nat)
    requires |h| == 44 && h[22..24] == Le16(channels) && h[24..28] == Le32(sampleRate)
    requires h[28..32] == Le32(rate) && h[32..34] == Le16(align)
    requires 2 * channels < U16 ==> align == 2 * channels && (full < U32 ==> rate == full)
    ensures var f := h + body;
            && (channels < U16 ==> ReadLe16(f, 22) == channels)
            && (2 * channels < U16 ==> ReadLe16(f, 32) == 2 * channels)
            && (sampleRate < U32 ==> ReadLe32(f, 24) == sampleRate)
            && (2 * channels < U16 && full < U32 ==> ReadLe32(f, 28) == full)
  {
    FormatIsThere(h, body, sampleRate, channels, align, rate);
  }

  /** The chunk sizes a reader of the format relies on: RIFF counts the file after its first eight
      bytes, `data` counts the samples. */
  lemma HeaderSizesDescribeTheFile(sampleRate: nat, channels: nat, pcm: Bytes, f: Bytes)
    requires f == WavHeader(sampleRate, channels, |pcm|) + pcm && |f| < U32
    ensures ReadLe32(f, 4) == |f| - 8 && ReadLe32(f, 40) == |f| - HEADER_BYTES
  {
    NoWrap(|pcm|);
    HeaderSizeFields(sampleRate, channels, |pcm|, pcm, f);
  }

  lemma NoWrap(n: nat)
    requires n + 36 < U32
    ensures RiffChunkSize(n) % U32 == 36 + n && n % U32 == n
  {
  }

  lemma HeaderSizeFields(sampleRate: nat, channels: nat, dataBytes: nat, body: Bytes, f: Bytes)
    requires f == WavHeader(sampleRate, channels, dataBytes) + body
    ensures |f| >= HEADER_BYTES
    ensures ReadLe32(f, 4) == RiffChunkSize(dataBytes) % U32 && ReadLe32(f, 40) == dataBytes % U32
  {
    HeaderFields(sampleRate, channels, dataBytes);
    ReadBehindHeader(WavHeader(sampleRate, channels, dataBytes), body, 4, RiffChunkSize(dataBytes));
    ReadBehindHeader(WavHeader(sampleRate, channels, dataBytes), body, 40, dataBytes);
  }

  // ---------------------------------------------------------------- writing into a caller's buffer

  method PutLe16(out: array<Byte>, at: nat, v: nat)
    requires at + 2 <= out.Length
    modifies out
    ensures out[..] == WriteAt(old(out[..]), at, Le16(v))
  {
    out[at] := v % 256;
    out[at + 1] := v / 256 % 256;
  }

  method PutLe32(out: array<Byte>, at: nat, v: nat)
    requires at + 4 <= out.Length
    modifies out
    ensures out[..] == WriteAt(old(out[..]), at, Le32(v))
  {
    out[at] := v % 256;
    out[at + 1] := v / 256 % 256;
    out[at + 2] := v / 65536 % 256;
    out[at + 3] := v / 16777216 % 256;
  }

  method Copy4(out: array<Byte>, at: nat, tag: Bytes)
    requires at + 4 <= out.Length && |tag| == 4
    modifies out
    ensures out[..] == WriteAt(old(out[..]), at, tag)
  {
    out[at], out[at + 1], out[at + 2], out[at + 3] := tag[0], tag[1], tag[2], tag[3];
  }

  method PatchWavSizes(header: array<Byte>, dataBytes: nat)
    requires header.Length >= HEADER_BYTES
    modifies header
    ensures header[..] == Patched(old(header[..]), dataBytes)
  {
    PutLe32(header, 4, RiffChunkSize(dataBytes));
    PutLe32(header, 40, dataBytes);
    WritingBothSizesPatches(old(header[..]), dataBytes);
  }

  /** The first k bytes of the buffer are those of the header. */
  ghost predicate HeaderUpTo(out: Bytes, k: nat, sampleRate: nat, channels: nat, dataBytes: nat) {
    k <= HEADER_BYTES <= |out| && out[..k] == WavHeader(sampleRate, channels, dataBytes)[..k]
  }

  lemma HeaderGrows(b: Bytes, k: nat, field: Bytes, sampleRate: nat, channels: nat, dataBytes: nat)
    requires HeaderUpTo(b, k, sampleRate, channels, dataBytes) && k + |field| <= HEADER_BYTES
    requires field == WavHeader(sampleRate, channels, dataBytes)[k..k + |field|]
    ensures HeaderUpTo(WriteAt(b, k, field), k + |field|, sampleRate, channels, dataBytes)
  {
    var h := WavHeader(sampleRate, channels, dataBytes);
    assert WriteAt(b, k, field)[..k + |field|] == b[..k] + field;
    assert h[..k + |field|] == h[..k] + h[k..k + |field|];
  }

  lemma WholeHeader(h: Bytes, sampleRate: nat, channels: nat, dataBytes: nat)
    requires h == WavHeader(sampleRate, channels, dataBytes)
    ensures Announces(h, sampleRate, channels)
    ensures dataBytes + 36 < U32 ==> ReadLe32(h, 4) == dataBytes + 36 && ReadLe32(h, 40) == dataBytes
  {
    assert h == h + [];
    HeaderAnnounces(sampleRate, channels, dataBytes, []);
    HeaderSizeFields(sampleRate, channels, dataBytes, [], h);
    if dataBytes + 36 < U32 {
      NoWrap(dataBytes);
    }
  }

  method WriteWavHeader(out: array<Byte>, sampleRate: nat, channels: nat, dataBytes: nat)
    requires out.Length == HEADER_BYTES
    modifies out
    ensures out[..] == WavHeader(sampleRate, channels, dataBytes)
    ensures Announces(out[..], sampleRate, channels)
    ensures dataBytes + 36 < 0x1_0000_0000 ==> ReadLe32(out[..], 4) == dataBytes + 36 && ReadLe32(out[..], 40) == dataBytes
  {
    var blockAlign := channels * (BITS_PER_SAMPLE / 8) % U16;
    var byteRate := sampleRate * blockAlign % U32;
    HeaderFields(sampleRate, channels, dataBytes);
    WriteFormatFields(out, sampleRate, channels, dataBytes, blockAlign, byteRate);
    ghost var b := out[..];
    Copy4(out, 36, DATA);
    HeaderGrows(b, 36, DATA, sampleRate, channels, dataBytes);
    b := out[..];
    PutLe32(out, 40, dataBytes);
    HeaderGrows(b, 40, Le32(dataBytes), sampleRate, channels, dataBytes);
    assert out[..][..44] == out[..];
    WholeHeader(out[..], sampleRate, channels, dataBytes);
  }

  method WriteRiffFields(out: array<Byte>, ghost sampleRate: nat, ghost channels: nat, dataBytes: nat)
    requires out.Length == HEADER_BYTES
    modifies out
    ensures HeaderUpTo(out[..], 20, sampleRate, channels, dataBytes)
  {
    HeaderFields(sampleRate, channels, dataBytes);
    ghost var b := out[..];
    Copy4(out, 0, RIFF);
    HeaderGrows(b, 0, RIFF, sampleRate, channels, dataBytes);
    b := out[..];
    PutLe32(out, 4, RiffChunkSize(dataBytes));
    HeaderGrows(b, 4, Le32(RiffChunkSize(dataBytes)), sampleRate, channels, dataBytes);
    b := out[..];
    Copy4(out, 8, WAVE);
    HeaderGrows(b, 8, WAVE, sampleRate, channels, dataBytes);
    b := out[..];
    Copy4(out, 12, FMT);
    HeaderGrows(b, 12, FMT, sampleRate, channels, dataBytes);
    b := out[..];
    PutLe32(out, 16, 16);
    HeaderGrows(b, 16, Le32(16), sampleRate, channels, dataBytes);
  }

  method WriteFormatFields(out: array<Byte>, sampleRate: nat, channels: nat, dataBytes: nat,
                           blockAlign: nat, byteRate: nat)
    requires out.Length == HEADER_BYTES
    requires blockAlign == BlockAlign(channels) && byteRate == sampleRate * blockAlign % U32
    modifies out
    ensures HeaderUpTo(out[..], 36, sampleRate, channels, dataBytes)
  {
    HeaderFields(sampleRate, channels, dataBytes);
    WriteRiffFields(out, sampleRate, channels, dataBytes);
    ghost var b := out[..];
    PutLe16(out, 20, 1);
    HeaderGrows(b, 20, Le16(1), sampleRate, channels, dataBytes);
    b := out[..];
    PutLe16(out, 22, channels);
    HeaderGrows(b, 22, Le16(channels), sampleRate, channels, dataBytes);
    b := out[..];
    PutLe32(out, 24, sampleRate);
    HeaderGrows(b, 24, Le32(sampleRate), sampleRate, channels, dataBytes);
    b := out[..];
    PutLe32(out, 28, byteRate);
    HeaderGrows(b, 28, Le32(byteRate), sampleRate, channels, dataBytes);
    b := out[..];
    PutLe16(out, 32, blockAlign);
    HeaderGrows(b, 32, Le16(blockAlign), sampleRate, channels, dataBytes);
    b := out[..];
    PutLe16(out, 34, BITS_PER_SAMPLE);
    HeaderGrows(b, 34, Le16(BITS_PER_SAMPLE), sampleRate, channels, dataBytes);
  }
}
