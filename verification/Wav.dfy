/** The WAVE reader and writer of internal/audio/audio.go. */
module Wav {
  import opened Bytes
  import opened Wrappers

  const MIN_RATE_HZ := 8000
  const MAX_RATE_HZ := 48000

  // The four-character codes of RIFF/WAVE, as little-endian 32-bit numbers.
  const RIFF := 0x46464952
  const WAVE := 0x45564157
  const FMT := 0x20746D66
  const DATA := 0x61746164

  lemma FourCharacterCodes()
    ensures LE32(RIFF) == ['R' as int, 'I' as int, 'F' as int, 'F' as int]
    ensures LE32(WAVE) == ['W' as int, 'A' as int, 'V' as int, 'E' as int]
    ensures LE32(FMT) == ['f' as int, 'm' as int, 't' as int, ' ' as int]
    ensures LE32(DATA) == ['d' as int, 'a' as int, 't' as int, 'a' as int]
  {
  }

  datatype Wave = Wave(pcm: seq<byte>, sampleRate: int, sourceChannels: int, durationMs: int)

  datatype Error =
    | NotWav | FmtTooShort | NoFmt | BadFormat | BadDepth | BadChannels | BadRate | NoAudio | NoSamples

  // ---------------------------------------------------------------- chunks

  datatype Chunk = Chunk(id: int, body: seq<byte>)

  predicate WellFormed(c: Chunk) {
    0 <= c.id < TWO32 && |c.body| < TWO32
  }

  function Padding(n: nat): seq<byte> {
    if n % 2 == 1 then [0] else []
  }

  /** A chunk on the wire: id, size, body, and a pad byte after an odd body. */
  function PutChunk(c: Chunk): (s: seq<byte>)
    requires WellFormed(c)
    ensures |s| == 8 + |c.body| + |c.body| % 2
  {
    LE32(c.id) + LE32(|c.body|) + c.body + Padding(|c.body|)
  }

  function PutChunks(cs: seq<Chunk>): seq<byte>
    requires forall c <- cs :: WellFormed(c)
  {
    if cs == [] then [] else PutChunk(cs[0]) + PutChunks(cs[1..])
  }

  /** The body size the reader uses for the chunk at an offset. It stops at a
      chunk that overruns the input, but an overrunning `data` chunk is cut to
      what is there. */
  function BodySize(data: seq<byte>, off: nat): (size: Option<nat>)
    requires off + 8 <= |data|
    ensures size.Some? ==> off + 8 + size.value <= |data|
  {
    var size := U32(data, off + 4);
    if off + 8 + size <= |data| then Some(size)
    else if U32(data, off) == DATA && off + 8 < |data| then Some(|data| - off - 8)
    else None
  }

  /** The chunks a reader finds from an offset on. */
  function Chunks(data: seq<byte>, off: nat): seq<Chunk>
    decreases |data| - off
  {
    if off + 8 > |data| then []
    else
      match BodySize(data, off)
      case None => []
      case Some(n) => [Chunk(U32(data, off), data[off + 8..off + 8 + n])] + Chunks(data, off + 8 + n + n % 2)
  }

  /** A chunk lying at an offset is the next one the reader finds there,
      whether or not its pad byte follows. */
  lemma ChunkAt(data: seq<byte>, off: nat, c: Chunk)
    requires WellFormed(c)
    requires At(data, off, LE32(c.id)) && At(data, off + 4, LE32(|c.body|)) && At(data, off + 8, c.body)
    ensures Chunks(data, off) == [c] + Chunks(data, off + 8 + |c.body| + |c.body| % 2)
  {
    U32At(data, off, c.id);
    U32At(data, off + 4, |c.body|);
    AtSlice(data, off + 8, c.body);
  }

  lemma PutChunkAt(data: seq<byte>, off: nat, c: Chunk)
    requires WellFormed(c) && At(data, off, PutChunk(c))
    ensures At(data, off, LE32(c.id)) && At(data, off + 4, LE32(|c.body|)) && At(data, off + 8, c.body)
  {
    var id, size := LE32(c.id), LE32(|c.body|);
    AtAppend(data, off, id + size + c.body, Padding(|c.body|));
    AtAppend(data, off, id + size, c.body);
    AtAppend(data, off, id, size);
  }

  /** The reader recovers every list of well-formed chunks exactly. */
  lemma {:induction false} ChunksOfPutChunks(data: seq<byte>, off: nat, cs: seq<Chunk>)
    requires forall c <- cs :: WellFormed(c)
    requires At(data, off, PutChunks(cs)) && off + |PutChunks(cs)| == |data|
    ensures Chunks(data, off) == cs
    decreases |cs|
  {
    hide PutChunk, At, BodySize, U32;
    if cs != [] {
      AtAppend(data, off, PutChunk(cs[0]), PutChunks(cs[1..]));
      PutChunkAt(data, off, cs[0]);
      ChunkAt(data, off, cs[0]);
      ChunksOfPutChunks(data, off + |PutChunk(cs[0])|, cs[1..]);
    }
  }

  function LastOf(cs: seq<Chunk>, id: int): Option<seq<byte>> {
    if cs == [] then None
    else if cs[|cs| - 1].id == id then Some(cs[|cs| - 1].body)
    else LastOf(cs[..|cs| - 1], id)
  }

  predicate ShortFmt(c: Chunk) {
    c.id == FMT && |c.body| < 16
  }

  // ---------------------------------------------------------------- downmix

  /** The sum of samples k, k+1, ..., k+c-1. */
  function Sum(pcm: seq<byte>, k: nat, c: nat): (sum: int)
    requires 2 * (k + c) <= |pcm|
    ensures -32768 * c <= sum <= 32767 * c
  {
    if c == 0 then 0 else Sum(pcm, k, c - 1) + Sample(pcm, k + c - 1)
  }

  /** The first n frames of interleaved PCM, averaged into one channel. */
  function Mono(pcm: seq<byte>, channels: nat, n: nat): (out: seq<byte>)
    requires channels > 0 && 2 * (n * channels) <= |pcm|
    ensures |out| == 2 * n
  {
    if n == 0 then []
    else
      assert (n - 1) * channels + channels == n * channels;
      Mono(pcm, channels, n - 1) + LE16(Unsigned(TruncDiv(Sum(pcm, (n - 1) * channels, channels), channels)))
  }

  /** Averaging stays inside the 16-bit range, so the `int16` cast is exact. */
  lemma AverageInRange(sum: int, c: int)
    requires c > 0 && -32768 * c <= sum <= 32767 * c
    ensures -32768 <= TruncDiv(sum, c) <= 32767
  {
  }

  /** Sample i of the downmix is the truncated mean of the samples of frame i. */
  lemma {:induction false} MonoSample(pcm: seq<byte>, channels: nat, n: nat, i: nat)
    requires channels > 0 && 2 * (n * channels) <= |pcm| && i < n
    ensures i * channels + channels <= n * channels
    ensures Sample(Mono(pcm, channels, n), i) == TruncDiv(Sum(pcm, i * channels, channels), channels)
  {
    assert (n - 1) * channels + channels == n * channels;
    var out, sum := Mono(pcm, channels, n), Sum(pcm, (n - 1) * channels, channels);
    var prefix, v := Mono(pcm, channels, n - 1), TruncDiv(sum, channels);
    if i == n - 1 {
      AverageInRange(sum, channels);
      SignedOfUnsigned(v);
      assert At(out, 2 * i, LE16(Unsigned(v)));
      U16At(out, 2 * i, Unsigned(v));
    } else {
      MonoSample(pcm, channels, n - 1, i);
      assert out[2 * i] == prefix[2 * i] && out[2 * i + 1] == prefix[2 * i + 1];
    }
  }

  /** Frames that fit in the PCM; a trailing partial frame is ignored. */
  function FrameCount(pcm: seq<byte>, channels: nat): (n: nat)
    requires channels > 0
    ensures 2 * (n * channels) <= |pcm| < 2 * ((n + 1) * channels)
  {
    |pcm| / (channels * 2)
  }

  function Downmixed(pcm: seq<byte>, channels: nat): seq<byte> {
    if channels <= 1 then pcm else Mono(pcm, channels, FrameCount(pcm, channels))
  }

  method DownmixToMono(pcm: seq<byte>, channels: nat) returns (out: seq<byte>)
    ensures out == Downmixed(pcm, channels)
  {
    if channels <= 1 { return pcm; }
    var n := |pcm| / (channels * 2);
    assert n == FrameCount(pcm, channels);
    var buf := new byte[n * 2];
    for i := 0 to n
      invariant 2 * (i * channels) <= |pcm|
      invariant buf[..2 * i] == Mono(pcm, channels, i)
    {
      assert (i + 1) * channels == i * channels + channels <= n * channels by { Frames(i, n, channels); }
      var sum := 0;
      for c := 0 to channels
        invariant sum == Sum(pcm, i * channels, c)
        invariant buf[..2 * i] == Mono(pcm, channels, i)
      {
        sum := sum + Sample(pcm, i * channels + c);
      }
      PutU16(buf, i * 2, Unsigned(TruncDiv(sum, channels)));
    }
    assert buf[..] == buf[..2 * n];
    out := buf[..];
  }

  lemma Frames(i: nat, n: nat, channels: nat)
    requires i < n
    ensures (i + 1) * channels == i * channels + channels <= n * channels
  {
  }

  // ---------------------------------------------------------------- decode

  /** The last step of the decoder: check the format fields, then normalise. */
  function Finish(fmt: seq<byte>, pcm: seq<byte>): Result<Wave, Error>
    requires |fmt| >= 16
  {
    var format, channels, rate, bits := U16(fmt, 0), U16(fmt, 2), U32(fmt, 4), U16(fmt, 14);
    if format != 1 && !(format == 0xFFFE && bits == 16) then Failure(BadFormat)
    else if bits != 16 then Failure(BadDepth)
    else if channels < 1 || channels > 2 then Failure(BadChannels)
    else if rate < MIN_RATE_HZ || rate > MAX_RATE_HZ then Failure(BadRate)
    else if pcm == [] then Failure(NoAudio)
    else
      var mono := Even(Downmixed(pcm, channels));
      if mono == [] then Failure(NoSamples)
      else Success(Wave(mono, rate, channels, |mono| / 2 * 1000 / rate))
  }

  function Even(s: seq<byte>): seq<byte> {
    if |s| % 2 == 1 then s[..|s| - 1] else s
  }

  /** What a list of chunks decodes to: any short `fmt ` chunk is fatal,
      otherwise only the last `fmt ` and the last `data` chunk matter. */
  function FromChunks(cs: seq<Chunk>): Result<Wave, Error> {
    if exists c <- cs :: ShortFmt(c) then Failure(FmtTooShort)
    else
      match LastOf(cs, FMT)
      case None => Failure(NoFmt)
      case Some(fmt) =>
        LastOfIsThere(cs, FMT);
        Finish(fmt, LastOf(cs, DATA).GetOr([]))
  }

  lemma LastOfIsThere(cs: seq<Chunk>, id: int)
    ensures LastOf(cs, id).Some? ==> Chunk(id, LastOf(cs, id).value) in cs
  {
  }

  predicate IsWave(data: seq<byte>) {
    |data| >= 12 && U32(data, 0) == RIFF && U32(data, 8) == WAVE
  }

  function Decode(data: seq<byte>): Result<Wave, Error> {
    if IsWave(data) then FromChunks(Chunks(data, 12)) else Failure(NotWav)
  }

  /** The bodies of the last `fmt ` and `data` chunks from an offset on, when
      the chunks before it left these; None when a `fmt ` chunk is too short. */
  function Scan(data: seq<byte>, off: nat, fmt: Option<seq<byte>>, pcm: seq<byte>): Option<(Option<seq<byte>>, seq<byte>)>
    decreases |data| - off
  {
    if off + 8 > |data| || BodySize(data, off) == None then Some((fmt, pcm))
    else
      var id, n := U32(data, off), BodySize(data, off).value;
      var body, next := data[off + 8..off + 8 + n], off + 8 + n + n % 2;
      if id == FMT then if n < 16 then None else Scan(data, next, Some(body), pcm)
      else if id == DATA then Scan(data, next, fmt, body)
      else Scan(data, next, fmt, pcm)
  }

  lemma LastOfCons(c: Chunk, cs: seq<Chunk>, id: int)
    ensures LastOf([c] + cs, id) == if LastOf(cs, id).Some? then LastOf(cs, id) else if c.id == id then Some(c.body) else None
  {
    if cs != [] {
      var last := |cs| - 1;
      assert ([c] + cs)[..last + 1] == [c] + cs[..last];
      LastOfCons(c, cs[..last], id);
    }
  }

  /** The running scan is the declarative reading of the chunk list. */
  lemma {:induction false} ScanIsLast(data: seq<byte>, off: nat, fmt: Option<seq<byte>>, pcm: seq<byte>)
    ensures
      var cs := Chunks(data, off);
      Scan(data, off, fmt, pcm) ==
      if exists c <- cs :: ShortFmt(c) then None
      else Some((if LastOf(cs, FMT).Some? then LastOf(cs, FMT) else fmt, LastOf(cs, DATA).GetOr(pcm)))
    decreases |data| - off
  {
    hide U32, U16, BodySize;
    var cs := Chunks(data, off);
    if off + 8 <= |data| && BodySize(data, off).Some? {
      var id, n := U32(data, off), BodySize(data, off).value;
      var body, next := data[off + 8..off + 8 + n], off + 8 + n + n % 2;
      var c, rest := Chunk(id, body), Chunks(data, next);
      assert cs == [c] + rest && cs[0] == c;
      assert (exists d <- cs :: ShortFmt(d)) <==> ShortFmt(c) || exists d <- rest :: ShortFmt(d) by {
        assert forall d <- rest :: d in cs;
        assert forall d <- cs :: d == c || d in rest;
      }
      LastOfCons(c, rest, FMT);
      LastOfCons(c, rest, DATA);
      ScanIsLast(data, next, if id == FMT then Some(body) else fmt, if id == DATA then body else pcm);
    }
  }

  /** The chunk loop: the last `fmt ` and `data` bodies, or a short `fmt `. */
  method ScanChunks(data: seq<byte>) returns (short: bool, fmt: Option<seq<byte>>, pcm: seq<byte>)
    requires |data| >= 12
    ensures Scan(data, 12, None, []) == if short then None else Some((fmt, pcm))
  {
    short, fmt, pcm := false, None, [];
    var offset := 12;
    while offset + 8 <= |data|
      invariant Scan(data, offset, fmt, pcm) == Scan(data, 12, None, [])
      decreases |data| - offset
    {
      ghost var here := offset;
      var chunkID := U32(data, offset);
      var chunkSize := U32(data, offset + 4);
      offset := offset + 8;
      if offset + chunkSize > |data| {
        // Truncated final chunk: take what is there for data, otherwise stop.
        if chunkID == DATA && offset < |data| {
          chunkSize := |data| - offset;
        } else {
          return;
        }
      }
      assert BodySize(data, here) == Some(chunkSize);
      if chunkID == FMT {
        if chunkSize < 16 {
          short := true;
          return;
        }
        fmt := Some(data[offset..offset + chunkSize]);
      } else if chunkID == DATA {
        pcm := data[offset..offset + chunkSize];
      }
      offset := offset + chunkSize;
      if chunkSize % 2 == 1 { offset := offset + 1; }
    }
  }

  method DecodeWAV(data: seq<byte>) returns (r: Result<Wave, Error>)
    ensures r == Decode(data)
  {
    if |data| < 12 || U32(data, 0) != RIFF || U32(data, 8) != WAVE {
      return Failure(NotWav);
    }
    var short, fmt, pcm := ScanChunks(data);
    ScanIsLast(data, 12, None, []);
    if short { return Failure(FmtTooShort); }
    if fmt == None { return Failure(NoFmt); }
    LastOfIsThere(Chunks(data, 12), FMT);
    var f := fmt.value;
    var format, channels, sampleRate, bits := U16(f, 0), U16(f, 2), U32(f, 4), U16(f, 14);
    if format != 1 && !(format == 0xFFFE && bits == 16) { return Failure(BadFormat); }
    if bits != 16 { return Failure(BadDepth); }
    if channels < 1 || channels > 2 { return Failure(BadChannels); }
    if sampleRate < MIN_RATE_HZ || sampleRate > MAX_RATE_HZ { return Failure(BadRate); }
    if |pcm| == 0 { return Failure(NoAudio); }
    var mono := DownmixToMono(pcm, channels);
    if |mono| % 2 == 1 { mono := mono[..|mono| - 1]; }
    if |mono| == 0 { return Failure(NoSamples); }
    r := Success(Wave(mono, sampleRate, channels, |mono| / 2 * 1000 / sampleRate));
  }

  // ---------------------------------------------------------------- encode

  /** The container header of a file whose RIFF size is given. */
  function Front(size: int): (s: seq<byte>)
    ensures |s| == 12
  {
    LE32(RIFF) + LE32(Wrap32(size)) + LE32(WAVE)
  }

  /** The body of a 16-bit PCM `fmt ` chunk. */
  function FmtBody(channels: nat, rate: int): (s: seq<byte>)
    requires channels < 1000
    ensures |s| == 16
  {
    LE16(1) + LE16(channels) +
    (LE32(Wrap32(rate)) + LE32(Wrap32(rate * (channels * 2))) + LE16(channels * 2) + LE16(16))
  }

  /** The canonical 44-byte header in front of n bytes of 16-bit PCM. */
  function Header(channels: nat, rate: int, n: nat): (s: seq<byte>)
    requires channels < 1000
    ensures |s| == 44
  {
    Front(36 + n) + (LE32(FMT) + LE32(16) + FmtBody(channels, rate)) + (LE32(DATA) + LE32(Wrap32(n)))
  }

  method FillHeader(a: array<byte>, channels: nat, rate: int, n: nat)
    requires a.Length >= 44 && channels < 1000
    modifies a
    ensures a[..44] == Header(channels, rate, n)
    ensures forall i :: 44 <= i < a.Length ==> a[i] == old(a[i])
  {
    FillFront(a, 36 + n);
    FillFmt(a, channels, rate);
    ghost var front := a[..36];
    PutU32(a, 36, DATA);
    PutU32(a, 40, Wrap32(n));
    assert a[..44] == front + (LE32(DATA) + LE32(Wrap32(n)));
  }

  method FillFront(a: array<byte>, size: int)
    requires a.Length >= 12
    modifies a
    ensures a[..12] == Front(size)
    ensures forall i :: 12 <= i < a.Length ==> a[i] == old(a[i])
  {
    PutU32(a, 0, RIFF);
    PutU32(a, 4, Wrap32(size));
    PutU32(a, 8, WAVE);
  }

  method FillFmt(a: array<byte>, channels: nat, rate: int)
    requires a.Length >= 36 && channels < 1000
    modifies a
    ensures a[..36] == old(a[..12]) + (LE32(FMT) + LE32(16) + FmtBody(channels, rate))
    ensures forall i :: 36 <= i < a.Length ==> a[i] == old(a[i])
  {
    hide LE16, LE32, Wrap32;
    PutU32(a, 12, FMT);
    PutU32(a, 16, 16);
    PutU16(a, 20, 1);
    PutU16(a, 22, channels);
    FillRates(a, rate, channels * 2);
  }

  method FillRates(a: array<byte>, rate: int, blockAlign: nat)
    requires a.Length >= 36 && blockAlign < 2000
    modifies a
    ensures a[..36] == old(a[..24]) + (LE32(Wrap32(rate)) + LE32(Wrap32(rate * blockAlign)) + LE16(blockAlign) + LE16(16))
    ensures forall i :: 36 <= i < a.Length ==> a[i] == old(a[i])
  {
    hide LE16, LE32;
    var byteRate := rate * blockAlign;
    PutU32(a, 24, Wrap32(rate));
    PutU32(a, 28, Wrap32(byteRate));
    PutU16(a, 32, blockAlign);
    PutU16(a, 34, 16);
  }

  /** A 16-bit PCM file of some channels at a rate whose first 44 bytes describe
      it: the tags of RIFF/WAVE, and sizes, block align and byte rate that follow
      from the length of the file and from each other. */
  ghost predicate Describes(f: seq<byte>, channels: int, rate: int) {
    && |f| >= 44 && Letters(f, 0, "RIFF") && Letters(f, 8, "WAVE") && Letters(f, 12, "fmt ") && Letters(f, 36, "data")
    && U32(f, 4) == (|f| - 8) % TWO32 && U32(f, 40) == (|f| - 44) % TWO32 && U32(f, 16) == 16
    && U16(f, 20) == 1 && U16(f, 22) == channels && U32(f, 24) == rate % TWO32 && U16(f, 34) == 16
    && U16(f, 32) == U16(f, 22) * U16(f, 34) / 8
    && U32(f, 28) == U32(f, 24) * U16(f, 32) % TWO32
  }

  ghost predicate Letters(f: seq<byte>, off: nat, word: string) {
    off + |word| <= |f| && forall i :: 0 <= i < |word| ==> f[off + i] == word[i] as int
  }

  /** Every header describes its file. */
  lemma HeaderDescribes(channels: nat, rate: int, body: seq<byte>)
    requires channels < 1000
    ensures Describes(Header(channels, rate, |body|) + body, channels, rate)
  {
    var f := Header(channels, rate, |body|) + body;
    var n := Wrap32(|body|);
    HeaderParts(f, channels, rate, |body|, body);
    FrontParts(f, 36 + |body|);
    FmtParts(f, channels, rate);
    Tag(f, 12, FMT, "fmt ");
    Tag(f, 36, DATA, "data");
    ByteRate(rate, channels * 2);
    hide At, LE32, LE16, U32, U16, Header, FmtBody, Front, Letters;
    U32At(f, 16, 16);
    U32At(f, 40, n);
  }

  lemma HeaderParts(f: seq<byte>, channels: nat, rate: int, n: nat, body: seq<byte>)
    requires channels < 1000 && f == Header(channels, rate, n) + body
    ensures At(f, 0, Front(36 + n)) && At(f, 12, LE32(FMT)) && At(f, 16, LE32(16)) && At(f, 20, FmtBody(channels, rate))
    ensures At(f, 36, LE32(DATA)) && At(f, 40, LE32(Wrap32(n)))
  {
    assert At(f, 0, Header(channels, rate, n) + body);
    hide LE32, LE16, FmtBody, Front, At;
    var front, fmt, size := Front(36 + n), LE32(FMT) + LE32(16), LE32(DATA) + LE32(Wrap32(n));
    AtAppend(f, 0, Header(channels, rate, n), body);
    AtAppend(f, 0, front + (fmt + FmtBody(channels, rate)), size);
    AtAppend(f, 0, front, fmt + FmtBody(channels, rate));
    AtAppend(f, 12, fmt, FmtBody(channels, rate));
    AtAppend(f, 12, LE32(FMT), LE32(16));
    AtAppend(f, 36, LE32(DATA), LE32(Wrap32(n)));
  }

  lemma FrontParts(f: seq<byte>, size: int)
    requires At(f, 0, Front(size))
    ensures |f| >= 12 && Letters(f, 0, "RIFF") && Letters(f, 8, "WAVE") && U32(f, 4) == size % TWO32
  {
    AtAppend(f, 0, LE32(RIFF) + LE32(Wrap32(size)), LE32(WAVE));
    AtAppend(f, 0, LE32(RIFF), LE32(Wrap32(size)));
    Tag(f, 0, RIFF, "RIFF");
    Tag(f, 8, WAVE, "WAVE");
    U32At(f, 4, Wrap32(size));
    hide At, LE32, U32, Letters, Front;
  }

  lemma Tag(f: seq<byte>, off: nat, id: int, word: string)
    requires 0 <= id < TWO32 && At(f, off, LE32(id)) && |word| == 4
    requires forall i :: 0 <= i < 4 ==> LE32(id)[i] == word[i] as int
    ensures Letters(f, off, word)
  {
    hide LE32;
    forall i | 0 <= i < 4 ensures f[off + i] == word[i] as int { assert f[off + i] == LE32(id)[i]; }
  }

  lemma FmtParts(f: seq<byte>, channels: nat, rate: int)
    requires channels < 1000 && At(f, 20, FmtBody(channels, rate))
    ensures |f| >= 36
    ensures U16(f, 20) == 1 && U16(f, 22) == channels && U32(f, 24) == rate % TWO32
    ensures U32(f, 28) == (rate * (channels * 2)) % TWO32 && U16(f, 32) == channels * 2 && U16(f, 34) == 16
  {
    var byteRate := rate * (channels * 2);
    var a, b := LE16(1) + LE16(channels), LE32(Wrap32(rate)) + LE32(Wrap32(byteRate)) + LE16(channels * 2) + LE16(16);
    assert FmtBody(channels, rate) == a + b;
    hide At, LE16, LE32, U16, U32, FmtBody;
    AtAppend(f, 20, a, b);
    AtAppend(f, 20, LE16(1), LE16(channels));
    AtAppend(f, 24, LE32(Wrap32(rate)) + LE32(Wrap32(byteRate)) + LE16(channels * 2), LE16(16));
    AtAppend(f, 24, LE32(Wrap32(rate)) + LE32(Wrap32(byteRate)), LE16(channels * 2));
    AtAppend(f, 24, LE32(Wrap32(rate)), LE32(Wrap32(byteRate)));
    U16At(f, 20, 1);
    U16At(f, 22, channels);
    U32At(f, 24, Wrap32(rate));
    U32At(f, 28, Wrap32(byteRate));
    U16At(f, 32, channels * 2);
    U16At(f, 34, 16);
  }

  lemma ByteRate(rate: int, block: nat)
    ensures (rate % TWO32 * block) % TWO32 == rate * block % TWO32
  {
    var q, r := rate / TWO32, rate % TWO32;
    assert rate == q * TWO32 + r;
    assert rate * block == (q * block) * TWO32 + r * block;
    ModPlus(r * block, q * block);
  }

  lemma ModPlus(a: int, k: int)
    ensures (k * TWO32 + a) % TWO32 == a % TWO32
  {
  }

  method EncodeWAV(pcm: seq<byte>, sampleRate: int) returns (out: seq<byte>)
    ensures out == Header(1, sampleRate, |pcm|) + pcm
    ensures Describes(out, 1, sampleRate) && out[44..] == pcm
  {
    var buf := new byte[44 + |pcm|];
    FillHeader(buf, 1, sampleRate, |pcm|);
    CopyInto(buf, 44, pcm);
    out := buf[..];
    HeaderDescribes(1, sampleRate, pcm);
  }

  // ---------------------------------------------------------------- theorems

  lemma FrontIsWave(data: seq<byte>, size: int)
    requires At(data, 0, Front(size))
    ensures IsWave(data)
  {
    AtAppend(data, 0, LE32(RIFF) + LE32(Wrap32(size)), LE32(WAVE));
    AtAppend(data, 0, LE32(RIFF), LE32(Wrap32(size)));
    U32At(data, 0, RIFF);
    U32At(data, 8, WAVE);
  }

  lemma HeaderAt(data: seq<byte>, channels: nat, rate: int, n: nat, body: seq<byte>)
    requires channels < 1000 && n < TWO32
    requires data == Header(channels, rate, n) + body
    ensures At(data, 0, Front(36 + n))
    ensures At(data, 12, LE32(FMT)) && At(data, 16, LE32(16)) && At(data, 20, FmtBody(channels, rate))
    ensures At(data, 36, LE32(DATA)) && At(data, 40, LE32(n)) && At(data, 44, body)
  {
    assert At(data, 0, Header(channels, rate, n) + body);
    hide LE32, LE16, FmtBody, Front, At;
    var front, fmt, size := Front(36 + n), LE32(FMT) + LE32(16), LE32(DATA) + LE32(n);
    AtAppend(data, 0, Header(channels, rate, n), body);
    AtAppend(data, 0, front + (fmt + FmtBody(channels, rate)), size);
    AtAppend(data, 0, front, fmt + FmtBody(channels, rate));
    AtAppend(data, 12, fmt, FmtBody(channels, rate));
    AtAppend(data, 12, LE32(FMT), LE32(16));
    AtAppend(data, 36, LE32(DATA), LE32(n));
  }

  /** A `data` chunk that overruns the input is cut to what is there. */
  lemma OverrunData(data: seq<byte>, off: nat, n: nat, body: seq<byte>)
    requires |body| < n < TWO32 && |data| == off + 8 + |body|
    requires At(data, off, LE32(DATA)) && At(data, off + 4, LE32(n)) && At(data, off + 8, body)
    ensures Chunks(data, off) == if body == [] then [] else [Chunk(DATA, body)]
  {
    U32At(data, off, DATA);
    U32At(data, off + 4, n);
    AtSlice(data, off + 8, body);
    hide LE32, U32, At;
  }

  lemma TwoChunks(data: seq<byte>, off: nat, c: Chunk, n: nat, body: seq<byte>)
    requires WellFormed(c) && |c.body| == 16 && |body| <= n < TWO32 && |data| == off + 32 + |body|
    requires At(data, off, LE32(c.id)) && At(data, off + 4, LE32(16)) && At(data, off + 8, c.body)
    requires At(data, off + 24, LE32(DATA)) && At(data, off + 28, LE32(n)) && At(data, off + 32, body)
    ensures Chunks(data, off) == if body == [] && n > 0 then [c] else [c, Chunk(DATA, body)]
  {
    hide LE32, LE16, U32, U16, At, BodySize;
    ChunkAt(data, off, c);
    if |body| == n {
      ChunkAt(data, off + 24, Chunk(DATA, body));
    } else {
      OverrunData(data, off + 24, n, body);
    }
  }

  /** The reader finds exactly the two chunks of a canonical file, and of one
      whose data was cut short it finds the data that is left. */
  lemma ChunksOfCanonical(channels: nat, rate: int, n: nat, body: seq<byte>)
    requires channels < 1000 && |body| <= n < TWO32
    ensures IsWave(Header(channels, rate, n) + body)
    ensures
      var fmt := Chunk(FMT, FmtBody(channels, rate));
      Chunks(Header(channels, rate, n) + body, 12) == if body == [] && n > 0 then [fmt] else [fmt, Chunk(DATA, body)]
  {
    var data := Header(channels, rate, n) + body;
    HeaderAt(data, channels, rate, n, body);
    FrontIsWave(data, 36 + n);
    TwoChunks(data, 12, Chunk(FMT, FmtBody(channels, rate)), n, body);
  }

  /** Decoding a well-formed container is reading its chunk list. */
  lemma DecodeOfChunks(size: int, cs: seq<Chunk>)
    requires forall c <- cs :: WellFormed(c)
    ensures Decode(Front(size) + PutChunks(cs)) == FromChunks(cs)
  {
    var data := Front(size) + PutChunks(cs);
    assert At(data, 0, Front(size) + PutChunks(cs));
    hide At, Front, PutChunks, FromChunks, Chunks, IsWave;
    AtAppend(data, 0, Front(size), PutChunks(cs));
    FrontIsWave(data, size);
    ChunksOfPutChunks(data, 12, cs);
  }

  /** So two containers that agree on the last `fmt ` and the last `data`
      chunk decode alike, whatever else is in them. */
  lemma OnlyLastChunksMatter(size: int, cs: seq<Chunk>, size': int, cs': seq<Chunk>)
    requires forall c <- cs + cs' :: WellFormed(c) && !ShortFmt(c)
    requires LastOf(cs, FMT) == LastOf(cs', FMT) && LastOf(cs, DATA) == LastOf(cs', DATA)
    ensures Decode(Front(size) + PutChunks(cs)) == Decode(Front(size') + PutChunks(cs'))
  {
    assert forall c <- cs :: c in cs + cs';
    assert forall c <- cs' :: c in cs + cs';
    DecodeOfChunks(size, cs);
    DecodeOfChunks(size', cs');
  }

  lemma FmtFields(channels: nat, rate: int)
    requires channels < 1000
    ensures var f := FmtBody(channels, rate);
            U16(f, 0) == 1 && U16(f, 2) == channels && U32(f, 4) == Wrap32(rate) && U16(f, 14) == 16
  {
    var f := FmtBody(channels, rate);
    var r, b := LE32(Wrap32(rate)), LE32(Wrap32(rate * (channels * 2)));
    assert At(f, 0, LE16(1)) && At(f, 2, LE16(channels)) && At(f, 4, r) && At(f, 14, LE16(16));
    hide At, LE16, LE32, U16, U32;
    U16At(f, 0, 1);
    U16At(f, 2, channels);
    U32At(f, 4, Wrap32(rate));
    U16At(f, 14, 16);
  }

  /** What a canonical one- or two-channel file decodes to, in every case,
      also when only the first bytes of its audio are there. */
  lemma DecodeCanonical(channels: nat, rate: int, n: nat, body: seq<byte>)
    requires 1 <= channels <= 2 && |body| <= n < TWO32
    ensures
      var mono, r := Even(Downmixed(body, channels)), Wrap32(rate);
      Decode(Header(channels, rate, n) + body) ==
      if r < MIN_RATE_HZ || r > MAX_RATE_HZ then Failure(BadRate)
      else if body == [] then Failure(NoAudio)
      else if mono == [] then Failure(NoSamples)
      else Success(Wave(mono, r, channels, |mono| / 2 * 1000 / r))
  {
    var fmt, data := Chunk(FMT, FmtBody(channels, rate)), Header(channels, rate, n) + body;
    ChunksOfCanonical(channels, rate, n, body);
    FmtFields(channels, rate);
    LastOfTwo(fmt, Chunk(DATA, body));
    hide FmtBody, Header, Downmixed, Chunks, U16, U32, IsWave, LastOf;
    assert Decode(data) == Finish(fmt.body, body);
  }

  lemma LastOfTwo(c: Chunk, d: Chunk)
    requires c.id == FMT && d.id == DATA
    ensures LastOf([c], FMT) == LastOf([c, d], FMT) == Some(c.body)
    ensures LastOf([c], DATA) == None && LastOf([c, d], DATA) == Some(d.body)
  {
    assert [c, d][..1] == [c] && [c][..0] == [];
    assert LastOf([], DATA) == None;
  }

  /** Encoding then decoding gives back exactly the audio and the rate, for
      precisely the audio and rates the system uses. */
  lemma RoundTrip(pcm: seq<byte>, rate: int)
    requires |pcm| < TWO32 && 0 <= rate < TWO32
    ensures
      var r := Decode(Header(1, rate, |pcm|) + pcm);
      (r.Success? && r.value.pcm == pcm && r.value.sampleRate == rate && r.value.sourceChannels == 1)
      <==> (pcm != [] && |pcm| % 2 == 0 && 8000 <= rate <= 48000)
  {
    DecodeCanonical(1, rate, |pcm|, pcm);
  }

  /** Whatever is accepted was normalised: it is non-empty, whole-sample mono
      at an accepted rate, and no longer than the input. */
  lemma DecodedIsNormal(data: seq<byte>)
    ensures Decode(data).Success? ==>
              var w := Decode(data).value;
              && 0 < |w.pcm| <= |data| && |w.pcm| % 2 == 0
              && MIN_RATE_HZ <= w.sampleRate <= MAX_RATE_HZ && 1 <= w.sourceChannels <= 2
              && w.durationMs == |w.pcm| / 2 * 1000 / w.sampleRate
  {
    if Decode(data).Success? {
      var cs := Chunks(data, 12);
      LastOfIsThere(cs, DATA);
      LastOfIsThere(cs, FMT);
      ChunkBodiesFit(data, 12);
      FinishIsNormal(LastOf(cs, FMT).value, LastOf(cs, DATA).GetOr([]));
      hide Chunks, LastOf, IsWave, Finish;
    }
  }

  lemma FinishIsNormal(fmt: seq<byte>, pcm: seq<byte>)
    requires |fmt| >= 16
    ensures Finish(fmt, pcm).Success? ==>
              var w := Finish(fmt, pcm).value;
              && 0 < |w.pcm| <= |pcm| && |w.pcm| % 2 == 0
              && MIN_RATE_HZ <= w.sampleRate <= MAX_RATE_HZ && 1 <= w.sourceChannels <= 2
              && w.durationMs == |w.pcm| / 2 * 1000 / w.sampleRate
  {
    hide U16, U32, Mono, FrameCount;
  }

  lemma {:induction false} ChunkBodiesFit(data: seq<byte>, off: nat)
    ensures forall c <- Chunks(data, off) :: |c.body| <= |data|
    decreases |data| - off
  {
    hide U32, BodySize;
    if off + 8 <= |data| && BodySize(data, off).Some? {
      var n := BodySize(data, off).value;
      ChunkBodiesFit(data, off + 8 + n + n % 2);
    }
  }

  /** Normalising twice changes nothing but the recorded channel count. */
  lemma NormaliseIdempotent(data: seq<byte>)
    requires |data| < TWO32 && Decode(data).Success?
    ensures var w := Decode(data).value;
            Decode(Header(1, w.sampleRate, |w.pcm|) + w.pcm) == Success(w.(sourceChannels := 1))
  {
    DecodedIsNormal(data);
    var w := Decode(data).value;
    hide Decode;
    DecodeCanonical(1, w.sampleRate, |w.pcm|, w.pcm);
  }

  // ---------------------------------------------------------------- what is read

  predicate LastPlace(cs: seq<Chunk>, i: int, id: int) {
    0 <= i < |cs| && cs[i].id == id && forall j :: i < j < |cs| ==> cs[j].id != id
  }

  /** The last chunk of an id is the one that no later chunk shares it with. */
  lemma {:induction false} LastOfIs(cs: seq<Chunk>, id: int)
    ensures forall i :: LastPlace(cs, i, id) ==> LastOf(cs, id) == Some(cs[i].body)
    ensures LastOf(cs, id) == None <==> forall i :: 0 <= i < |cs| ==> cs[i].id != id
  {
    if cs != [] && cs[|cs| - 1].id != id {
      var before := cs[..|cs| - 1];
      LastOfIs(before, id);
      forall i | LastPlace(cs, i, id) ensures LastPlace(before, i, id) { }
      assert forall i :: 0 <= i < |before| ==> cs[i] == before[i];
    }
  }

  /** Any other chunk that overruns the input ends the reading. */
  lemma OverrunStops(data: seq<byte>, off: nat)
    requires off + 8 <= |data| < off + 8 + U32(data, off + 4) && !Letters(data, off, "data")
    ensures Chunks(data, off) == []
  {
    if U32(data, off) == DATA { DataTag(data, off); }
    hide U32, U16;
  }

  lemma DataTag(data: seq<byte>, off: nat)
    requires off + 4 <= |data| && U32(data, off) == DATA
    ensures Letters(data, off, "data")
  {
    var lo, hi := U16(data, off), U16(data, off + 2);
    assert lo == DATA % TWO16 && hi == DATA / TWO16;
  }

  /** Division truncates toward zero: what is left has the dividend's sign and
      is smaller than the divisor. */
  lemma TruncDivIs(a: int, b: int)
    requires b > 0
    ensures var left := a - TruncDiv(a, b) * b;
            -b < left < b && (a >= 0 ==> left >= 0) && (a <= 0 ==> left <= 0)
  {
    var m: nat := if a >= 0 then a else -a;
    var q := m / b;
    assert m == q * b + m % b;
    assert (-q) * b == -(q * b);
  }

  /** A file of one format and one data chunk decodes exactly when it is 16-bit
      PCM of one or two channels, between 8 and 48 kHz, with at least one sample. */
  lemma DecodesIff(size: int, fmt: seq<byte>, body: seq<byte>)
    requires |fmt| < TWO32 && |body| < TWO32
    ensures
      var r := Decode(Front(size) + PutChunks([Chunk(FMT, fmt), Chunk(DATA, body)]));
      && (r.Success? <==>
          && |fmt| >= 16 && (U16(fmt, 0) == 1 || U16(fmt, 0) == 0xFFFE) && U16(fmt, 14) == 16
          && 1 <= U16(fmt, 2) <= 2 && 8000 <= U32(fmt, 4) <= 48000 && |body| >= 2 * U16(fmt, 2))
      && (r.Success? ==> r.value.sampleRate == U32(fmt, 4) && r.value.sourceChannels == U16(fmt, 2))
  {
    var c, d := Chunk(FMT, fmt), Chunk(DATA, body);
    DecodeOfChunks(size, [c, d]);
    LastOfTwo(c, d);
    assert [c, d][0] == c && [c, d][1] == d;
    hide Decode, PutChunks, Front, LastOf, U16, U32;
    if |fmt| < 16 {
      assert ShortFmt(c) && c in [c, d];
    } else {
      assert forall x <- [c, d] :: !ShortFmt(x);
      FinishIff(fmt, body);
    }
  }

  lemma FinishIff(fmt: seq<byte>, body: seq<byte>)
    requires |fmt| >= 16
    ensures
      var r := Finish(fmt, body);
      && (r.Success? <==>
          && (U16(fmt, 0) == 1 || U16(fmt, 0) == 0xFFFE) && U16(fmt, 14) == 16
          && 1 <= U16(fmt, 2) <= 2 && 8000 <= U32(fmt, 4) <= 48000 && |body| >= 2 * U16(fmt, 2))
      && (r.Success? ==> r.value.sampleRate == U32(fmt, 4) && r.value.sourceChannels == U16(fmt, 2))
  {
    var channels := U16(fmt, 2);
    if 1 <= channels <= 2 { SomeSamples(body, channels); }
    hide U16, U32, Downmixed, Even;
  }

  lemma SomeSamples(body: seq<byte>, channels: nat)
    requires 1 <= channels <= 2
    ensures Even(Downmixed(body, channels)) != [] <==> |body| >= 2 * channels
  {
    hide Mono;
  }

  lemma TagIff(data: seq<byte>, off: nat, id: int, word: string)
    requires off + 4 <= |data| && 0 <= id < TWO32 && |word| == 4
    requires forall i :: 0 <= i < 4 ==> LE32(id)[i] == word[i] as int
    ensures U32(data, off) == id <==> Letters(data, off, word)
  {
    if Letters(data, off, word) {
      assert At(data, off, LE32(id)) by {
        forall i | 0 <= i < 4 ensures data[off + i] == LE32(id)[i] { assert data[off + i] == word[i] as int; }
      }
      U32At(data, off, id);
    }
    if U32(data, off) == id {
      var lo, hi := U16(data, off), U16(data, off + 2);
      assert lo == id % TWO16 && hi == id / TWO16;
    }
  }

  /** Something else than a RIFF/WAVE file is refused as such, and nothing else is. */
  lemma NotWavIff(data: seq<byte>)
    ensures Decode(data) == Failure(NotWav) <==> !(|data| >= 12 && Letters(data, 0, "RIFF") && Letters(data, 8, "WAVE"))
  {
    if |data| >= 12 {
      FourCharacterCodes();
      TagIff(data, 0, RIFF, "RIFF");
      TagIff(data, 8, WAVE, "WAVE");
    }
    hide U32, U16, Letters, Chunks, Downmixed, LastOf;
  }

  /** A format chunk that is too short is fatal wherever it stands; without one of
      those, a file without a format chunk has no format. */
  lemma FormatNeeded(size: int, cs: seq<Chunk>)
    requires forall c <- cs :: WellFormed(c)
    ensures
      var r := Decode(Front(size) + PutChunks(cs));
      && ((exists c <- cs :: c.id == FMT && |c.body| < 16) ==> r == Failure(FmtTooShort))
      && ((forall c <- cs :: c.id != FMT) ==> r == Failure(NoFmt))
  {
    DecodeOfChunks(size, cs);
    LastOfIs(cs, FMT);
    hide Decode, PutChunks, Front, LastOf, Finish;
    if c :| c in cs && c.id == FMT && |c.body| < 16 { assert ShortFmt(c); }
  }
}
