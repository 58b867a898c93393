/** The console's DirectSound audio driver: format negotiation, creation of
    the chunk ring (a secondary buffer of two chunks, or the hardware primary
    buffer cut into chunks), and the steady-state cycle in which the mixer
    locks the chunk after the playing one, unlocks it, and waits for the
    hardware cursor to leave the playing chunk. Every DirectSound call is an
    input: a success flag, a handle, a capacity or a cursor position. */
module XboxAudio {

  import opened Common

  // ----------------------------------------------------------- constants

  /** SDL's unsigned 8-bit and signed 16-bit little-endian sample formats. */
  const AUDIO_U8: u16 := 0x0008
  const AUDIO_S16: u16 := 0x8010
  /** The wave format tag of integer PCM data. */
  const WAVE_FORMAT_PCM: u16 := 1
  /** The smallest and largest size DirectSound accepts for a buffer. */
  const DSBSIZE_MIN: nat := 4
  const DSBSIZE_MAX: nat := 0x0FFF_FFFF
  /** The secondary buffer always holds this many chunks. */
  const SecondaryChunks: nat := 2
  /** The largest chunk SDL computes: 65535 samples of 255 channels of 16 bits. */
  const MaxChunkSize: nat := 0xFFFF * 0xFF * 2

  // ------------------------------------------------------------ data model

  /** The part of SDL's audio request the driver reads and writes; `size` is
      the chunk size in bytes that SDL computed from the other fields. */
  datatype AudioSpec = AudioSpec(freq: i32, format: u16, channels: u8, size: u32)

  /** The wave format handed to DirectSound. */
  datatype WaveFormat = WaveFormat(formatTag: u16, channels: u16, samplesPerSec: u32,
                                   bitsPerSample: u16, blockAlign: u16, avgBytesPerSec: u32)

  /** The outcome of a successful format negotiation. */
  datatype Negotiated = Negotiated(format: u16, silence: u8, wave: WaveFormat)

  /** A DirectSound buffer pointer: NULL, a live buffer, or a pointer whose
      buffer has been released but which was not reset to NULL. */
  datatype BufRef = Null | Live(id: Handle) | Released(id: Handle)

  /** The driver's private state. `contents` are the bytes of the mixing
      buffer, `None` where nothing is known about a byte; `locked` is the
      offset of the locked chunk, `None` for a NULL lock pointer. */
  datatype Ring = Ring(sound: Option<Handle>, mixbuf: BufRef, audioEvent: Option<Handle>,
                       numBuffers: int, mixlen: u32, silence: u8, playing: u32,
                       locked: Option<nat>, contents: seq<Option<u8>>)

  /** A ring ready for the play cycle: the DirectSound object and a live
      buffer exist, the buffer is a whole number of non-empty chunks, and its
      size fits in a 32-bit byte count. */
  predicate Valid(r: Ring)
  {
    r.sound.Some? && r.mixbuf.Live? && r.numBuffers >= 1 && r.mixlen > 0
    && |r.contents| == r.numBuffers * r.mixlen && |r.contents| < TwoTo32
  }

  // --------------------------------------------------- format negotiation

  /** The format negotiation: only a low format byte of 8 or 16 is accepted;
      the block is one sample of every channel, and the byte rate is the
      sample rate times the block size, both in 32-bit unsigned arithmetic. */
  function NegotiateFormat(spec: AudioSpec): (r: Option<Negotiated>)
    ensures r.Some? <==> spec.format % 0x100 == 8 || spec.format % 0x100 == 16
    ensures r.Some? && spec.format % 0x100 == 8 ==>
              r.value.format == AUDIO_U8 && r.value.silence == 0x80 && r.value.wave.bitsPerSample == 8
    ensures r.Some? && spec.format % 0x100 == 16 ==>
              r.value.format == AUDIO_S16 && r.value.silence == 0 && r.value.wave.bitsPerSample == 16
    ensures r.Some? ==> r.value.wave.formatTag == WAVE_FORMAT_PCM && r.value.wave.channels == spec.channels
    ensures r.Some? ==> r.value.wave.blockAlign * 8 == spec.channels * r.value.wave.bitsPerSample
    ensures r.Some? && 0 <= spec.freq ==> r.value.wave.samplesPerSec == spec.freq
    ensures r.Some? && 0 <= spec.freq * r.value.wave.blockAlign < TwoTo32 && 0 <= spec.freq ==>
              r.value.wave.avgBytesPerSec == spec.freq * r.value.wave.blockAlign
  {
    var low := spec.format % 0x100;
    if low != 8 && low != 16 then None
    else
      var (format, silence, bits) := if low == 8 then (AUDIO_U8, 0x80, 8) else (AUDIO_S16, 0, 16);
      var rate := U32(spec.freq);
      var align := spec.channels * (bits / 8);
      Some(Negotiated(format, silence, WaveFormat(WAVE_FORMAT_PCM, spec.channels, rate, bits, align, U32(rate * align))))
  }

  // ------------------------------------------------------- ring creation

  /** What DirectSound answers while the secondary buffer is created: the new
      buffer or NULL, and whether locking it for the initial silence works. */
  datatype SecondaryEnv = SecondaryEnv(created: Option<Handle>, lockOk: bool)

  /** What DirectSound answers while the primary buffer is set up: the
      cooperative level, the new buffer or NULL, its capacity if the
      capability query succeeds, and whether the format can be set. */
  datatype PrimaryEnv = PrimaryEnv(cooperativeOk: bool, created: Option<Handle>, capacity: Option<u32>, setFormatOk: bool)

  /** A creation outcome: the chunk count or -1, the buffer pointer the
      creation leaves behind, and the buffer's bytes. */
  datatype Creation = Creation(numChunks: int, buffer: BufRef, contents: seq<Option<u8>>)

  /** The requested secondary buffer size, a 32-bit product. */
  function SecondaryBytes(chunk: u32): u32
  {
    U32(SecondaryChunks * chunk)
  }

  /** The secondary buffer: two chunks, rejected when that size lies outside
      DirectSound's bounds or the buffer cannot be created; on success it is
      filled with 0x80 for 8-bit samples and 0 otherwise when it can be locked. */
  function CreateSecondary(buffer: BufRef, bits: u16, chunk: u32, env: SecondaryEnv): (c: Creation)
    ensures c.numChunks == -1 || c.numChunks == SecondaryChunks
    ensures c.numChunks == SecondaryChunks <==>
              DSBSIZE_MIN <= SecondaryBytes(chunk) <= DSBSIZE_MAX && env.created.Some?
    ensures c.numChunks == -1 ==> c.buffer == buffer
    ensures c.numChunks == SecondaryChunks ==>
              c.buffer == Live(env.created.value) && |c.contents| == SecondaryBytes(chunk)
    ensures c.numChunks == SecondaryChunks ==> forall i :: 0 <= i < |c.contents| ==>
              c.contents[i] == if env.lockOk then Some(if bits == 8 then 0x80 else 0) else None
  {
    var bytes := SecondaryBytes(chunk);
    if bytes < DSBSIZE_MIN || bytes > DSBSIZE_MAX then Creation(-1, buffer, [])
    else if env.created.None? then Creation(-1, buffer, [])
    else
      var fill: u8 := if bits == 8 then 0x80 else 0x00;
      Creation(SecondaryChunks, Live(env.created.value), seq(bytes, _ => if env.lockOk then Some(fill) else None))
  }

  /** For any chunk SDL can compute, the secondary buffer is created exactly
      when the chunk is at least 2 bytes and at most half of DSBSIZE_MAX. */
  lemma SecondarySizeBounds(buffer: BufRef, bits: u16, chunk: u32, env: SecondaryEnv)
    requires chunk <= MaxChunkSize
    ensures CreateSecondary(buffer, bits, chunk, env).numChunks == SecondaryChunks <==>
              DSBSIZE_MIN / SecondaryChunks <= chunk <= DSBSIZE_MAX / SecondaryChunks && env.created.Some?
  {
    assert SecondaryBytes(chunk) == 2 * chunk;
  }

  /** The primary buffer cut into chunks, for a least acceptable chunk count
      `minChunks`: rejected when the set-up fails or the capacity is not a
      multiple of at least `minChunks` chunks; a buffer created and then
      rejected is released but its pointer is left in place. */
  function PrimaryWithMinimum(buffer: BufRef, chunk: u32, env: PrimaryEnv, minChunks: nat): (c: Creation)
    requires chunk > 0
  {
    if !env.cooperativeOk then Creation(-1, buffer, [])
    else if env.created.None? then Creation(-1, buffer, [])
    else
      var h := env.created.value;
      if env.capacity.None? then Creation(-1, Released(h), [])
      else
        var capacity := env.capacity.value;
        if capacity / chunk < minChunks || capacity % chunk != 0 then Creation(-1, Released(h), [])
        else if !env.setFormatOk then Creation(-1, Released(h), [])
        else Creation(capacity / chunk, Live(h), seq(capacity, _ => None))
  }

  /** The primary buffer set-up as written: a capacity is refused only when it
      is smaller than one chunk or not a multiple of the chunk size, so a
      capacity of exactly one chunk is accepted. */
  function CreatePrimaryAsWritten(buffer: BufRef, chunk: u32, env: PrimaryEnv): (c: Creation)
    requires chunk > 0
    ensures c.numChunks == -1 || c.numChunks >= 1
    ensures c.numChunks != -1 <==>
              env.cooperativeOk && env.created.Some? && env.capacity.Some? && chunk <= env.capacity.value
              && env.capacity.value % chunk == 0 && env.setFormatOk
    ensures c.numChunks != -1 ==>
              c.numChunks * chunk == env.capacity.value && c.buffer == Live(env.created.value)
              && |c.contents| == env.capacity.value
    ensures c.numChunks == -1 && env.cooperativeOk && env.created.Some? ==> c.buffer == Released(env.created.value)
    ensures c.numChunks == -1 && !(env.cooperativeOk && env.created.Some?) ==> c.buffer == buffer
  {
    PrimaryChunkCount(chunk, env.capacity);
    PrimaryWithMinimum(buffer, chunk, env, 1)
  }

  /** The primary buffer set-up as the double-buffered cycle needs it: as
      written, but a capacity of fewer than two chunks is refused too. */
  function CreatePrimary(buffer: BufRef, chunk: u32, env: PrimaryEnv): (c: Creation)
    requires chunk > 0
    ensures c.numChunks == -1 || c.numChunks >= 2
    ensures c.numChunks != -1 <==>
              env.cooperativeOk && env.created.Some? && env.capacity.Some? && 2 * chunk <= env.capacity.value
              && env.capacity.value % chunk == 0 && env.setFormatOk
    ensures c.numChunks != -1 ==>
              c.numChunks * chunk == env.capacity.value && c.buffer == Live(env.created.value)
              && |c.contents| == env.capacity.value
    ensures c.numChunks == -1 && env.cooperativeOk && env.created.Some? ==> c.buffer == Released(env.created.value)
    ensures c.numChunks == -1 && !(env.cooperativeOk && env.created.Some?) ==> c.buffer == buffer
  {
    PrimaryChunkCount(chunk, env.capacity);
    PrimaryWithMinimum(buffer, chunk, env, 2)
  }

  /** A capacity that is a multiple of the chunk holds capacity/chunk chunks,
      and at least k of them exactly when it is at least k chunks long. */
  lemma PrimaryChunkCount(chunk: u32, capacity: Option<u32>)
    requires chunk > 0
    ensures capacity.Some? && capacity.value % chunk == 0 ==> (capacity.value / chunk) * chunk == capacity.value
    ensures capacity.Some? ==> (capacity.value / chunk >= 1 <==> chunk <= capacity.value)
    ensures capacity.Some? ==> (capacity.value / chunk >= 2 <==> 2 * chunk <= capacity.value)
  {
    if capacity.Some? {
      ChunkQuotient(capacity.value, chunk);
    }
  }

  /** The quotient facts of `PrimaryChunkCount` on plain numbers. */
  lemma ChunkQuotient(c: nat, d: nat)
    requires d > 0
    ensures c % d == 0 ==> (c / d) * d == c
    ensures c / d >= 1 <==> d <= c
    ensures c / d >= 2 <==> 2 * d <= c
  {
    var q, r := c / d, c % d;
    assert c == q * d + r && 0 <= r < d;
    if q >= 2 {
      MulLe(2, q, d);
    } else if q == 1 {
      assert c == d + r;
    } else {
      assert q == 0 && c == r;
    }
  }

  // ----------------------------------------------------------------- open

  /** An open outcome: 0 or -1, the request as updated, and the driver state. */
  datatype OpenResult = OpenResult(status: int, spec: AudioSpec, ring: Ring)

  /** The primary attempt of an open: the set-up's outcome when the driver is
      built to use the primary buffer, and a refusal leaving the pointer NULL
      when it is not. */
  function PrimaryAttempt(usePrimary: bool, asWritten: bool, chunk: u32, env: PrimaryEnv): (c: Creation)
    requires usePrimary ==> chunk > 0
  {
    if !usePrimary then Creation(-1, Null, [])
    else if asWritten then CreatePrimaryAsWritten(Null, chunk, env)
    else CreatePrimary(Null, chunk, env)
  }

  /** Opening the device once the primary attempt `p` is known: the buffer
      pointer is reset, the format negotiated, and the secondary buffer tried
      when the primary attempt failed. Success starts the ring at chunk 0
      with chunks of the request's size. */
  function OpenFrom(r: Ring, spec: AudioSpec, p: Creation, secondary: SecondaryEnv): (o: OpenResult)
    requires p.numChunks >= 0 ==>
               p.numChunks >= 1 && p.buffer.Live? && |p.contents| == p.numChunks * spec.size && |p.contents| < TwoTo32
  {
    var r0 := r.(mixbuf := Null);
    match NegotiateFormat(spec)
    case None => OpenResult(-1, spec, r0)
    case Some(n) =>
      var spec' := spec.(format := n.format);
      var r1 := r0.(silence := n.silence);
      var c := if p.numChunks >= 0 then p else CreateSecondary(p.buffer, n.wave.bitsPerSample, spec.size, secondary);
      if c.numChunks < 0 then OpenResult(-1, spec', r1.(mixbuf := c.buffer, numBuffers := -1))
      else
        assert spec.size <= MaxChunkSize ==> c.numChunks * spec.size == |c.contents| by {
          if p.numChunks < 0 && spec.size <= MaxChunkSize {
            assert SecondaryBytes(spec.size) == 2 * spec.size;
          }
        }
        OpenResult(0, spec', r1.(mixbuf := c.buffer, numBuffers := c.numChunks, playing := 0,
                                 mixlen := spec.size, contents := c.contents))
  }

  /** What every open promises, whichever primary rule it follows: status 0
      or -1, the DirectSound object, event and lock pointer untouched, a
      refused format reported with a NULL buffer pointer and the request
      unchanged, an accepted format written back with its silence byte, and
      a success starting a live ring at chunk 0 with chunks of the request's
      size that hold the whole buffer. */
  predicate OpenShape(r: Ring, spec: AudioSpec, o: OpenResult)
  {
    && (o.status == 0 || o.status == -1)
    && o.ring.sound == r.sound && o.ring.audioEvent == r.audioEvent && o.ring.locked == r.locked
    && (NegotiateFormat(spec).None? ==> o == OpenResult(-1, spec, r.(mixbuf := Null)))
    && (NegotiateFormat(spec).Some? ==>
          o.spec == spec.(format := NegotiateFormat(spec).value.format)
          && o.ring.silence == NegotiateFormat(spec).value.silence)
    && (NegotiateFormat(spec).Some? && o.status == -1 ==> o.ring.numBuffers == -1)
    && (o.status == 0 ==>
          o.ring.playing == 0 && o.ring.mixlen == spec.size && o.ring.numBuffers >= 1 && o.ring.mixbuf.Live?
          && |o.ring.contents| < TwoTo32)
    && (o.status == 0 && spec.size <= MaxChunkSize ==> |o.ring.contents| == o.ring.numBuffers * o.ring.mixlen)
  }

  /** Opening the device as written: the primary buffer, when so configured,
      is accepted with a single chunk, so a successful open can leave a ring
      of one chunk; the secondary buffer always has two. */
  function OpenAudioAsWritten(r: Ring, spec: AudioSpec, usePrimary: bool, primary: PrimaryEnv, secondary: SecondaryEnv): (o: OpenResult)
    requires usePrimary ==> spec.size > 0
    ensures OpenShape(r, spec, o)
    ensures o.status == 0 && o.ring.numBuffers < SecondaryChunks ==>
              usePrimary && primary.capacity == Some(spec.size)
    ensures NegotiateFormat(spec).Some? ==>
              (o.status == 0 <==>
                 (usePrimary && CreatePrimaryAsWritten(Null, spec.size, primary).numChunks != -1)
                 || CreateSecondary(Null, NegotiateFormat(spec).value.wave.bitsPerSample, spec.size, secondary).numChunks != -1)
  {
    var p := PrimaryAttempt(usePrimary, true, spec.size, primary);
    assert p.numChunks == 1 ==> primary.capacity == Some(spec.size);
    OpenFrom(r, spec, p, secondary)
  }

  /** Opening the device with the corrected primary rule: the buffer pointer
      is reset, the format negotiated, then the primary buffer tried when so
      configured and the secondary buffer otherwise or when that fails; every
      successful open has at least two chunks. */
  function OpenAudio(r: Ring, spec: AudioSpec, usePrimary: bool, primary: PrimaryEnv, secondary: SecondaryEnv): (o: OpenResult)
    requires usePrimary ==> spec.size > 0
    ensures OpenShape(r, spec, o)
    ensures o.status == 0 ==> o.ring.numBuffers >= SecondaryChunks
    ensures NegotiateFormat(spec).Some? ==>
              (o.status == 0 <==>
                 (usePrimary && CreatePrimary(Null, spec.size, primary).numChunks != -1)
                 || CreateSecondary(Null, NegotiateFormat(spec).value.wave.bitsPerSample, spec.size, secondary).numChunks != -1)
  {
    OpenFrom(r, spec, PrimaryAttempt(usePrimary, false, spec.size, primary), secondary)
  }

  /** A successful open as written on an existing DirectSound object, for any
      chunk size SDL computes, leaves a valid ring; it has the secondary
      buffer's two chunks unless the primary buffer was taken. */
  lemma OpenLeavesValidRingAsWritten(r: Ring, spec: AudioSpec, usePrimary: bool, primary: PrimaryEnv, secondary: SecondaryEnv)
    requires usePrimary ==> spec.size > 0
    requires spec.size <= MaxChunkSize
    requires r.sound.Some?
    requires OpenAudioAsWritten(r, spec, usePrimary, primary, secondary).status == 0
    ensures Valid(OpenAudioAsWritten(r, spec, usePrimary, primary, secondary).ring)
    ensures !(usePrimary && CreatePrimaryAsWritten(Null, spec.size, primary).numChunks != -1) ==>
              OpenAudioAsWritten(r, spec, usePrimary, primary, secondary).ring.numBuffers == SecondaryChunks
  {
  }

  /** A successful corrected open on an existing DirectSound object, for any
      chunk size SDL computes, leaves a valid ring of at least two chunks. */
  lemma OpenLeavesValidRing(r: Ring, spec: AudioSpec, usePrimary: bool, primary: PrimaryEnv, secondary: SecondaryEnv)
    requires usePrimary ==> spec.size > 0
    requires spec.size <= MaxChunkSize
    requires r.sound.Some?
    requires OpenAudio(r, spec, usePrimary, primary, secondary).status == 0
    ensures Valid(OpenAudio(r, spec, usePrimary, primary, secondary).ring)
    ensures OpenAudio(r, spec, usePrimary, primary, secondary).ring.numBuffers >= SecondaryChunks
  {
  }

  /** When the secondary buffer is used and could be locked, it starts out
      holding the silence byte chosen by the format negotiation. */
  lemma SecondaryStartsSilent(r: Ring, spec: AudioSpec, primary: PrimaryEnv, secondary: SecondaryEnv)
    requires secondary.lockOk
    requires OpenAudio(r, spec, false, primary, secondary).status == 0
    ensures var ring := OpenAudio(r, spec, false, primary, secondary).ring;
            forall i :: 0 <= i < |ring.contents| ==> ring.contents[i] == Some(ring.silence)
  {
  }

  // --------------------------------------------------------- lock / play

  /** The offset of the chunk after chunk `playing`, wrapping to chunk 0. */
  function LockOffset(playing: u32, numBuffers: int, mixlen: u32): u32
    requires numBuffers > 0
  {
    U32((U32(playing + 1) % numBuffers) * mixlen)
  }

  /** Fetching the buffer to mix into: the lock pointer is cleared, the
      playing chunk is read off the cursor, and the chunk after it is locked.
      A failed cursor query or lock leaves the lock pointer NULL; nothing
      else changes. */
  function GetAudioBuf(r: Ring, position: Option<u32>, lockOk: bool): (res: (Ring, Option<nat>))
    requires r.mixlen > 0 && r.numBuffers > 0
    ensures res.1 == res.0.locked
    ensures position.None? ==> res.0 == r.(locked := None)
    ensures position.Some? ==> res.0.playing == position.value / r.mixlen
    ensures position.Some? ==> (res.1.Some? <==> lockOk)
    ensures res.0 == r.(playing := res.0.playing, locked := res.1)
  {
    match position
    case None => (r.(locked := None), None)
    case Some(cursor) =>
      var playing := cursor / r.mixlen;
      var offset := LockOffset(playing, r.numBuffers, r.mixlen);
      var locked := if lockOk then Some(offset as nat) else None;
      (r.(playing := playing, locked := locked), locked)
  }

  /** A region handed back to DirectSound by an unlock. */
  datatype Unlock = Unlock(offset: nat, length: nat)

  /** Handing the mixed chunk to the hardware: an unlock of `mixlen` bytes
      at the lock pointer, made only when it is non-NULL. The state is left
      as it is; in particular the lock pointer is not cleared. */
  function PlayAudio(r: Ring): (u: Option<Unlock>)
    ensures u.Some? <==> r.locked.Some?
    ensures u.Some? ==> u.value == Unlock(r.locked.value, r.mixlen)
  {
    if r.locked.Some? then Some(Unlock(r.locked.value, r.mixlen)) else None
  }

  /** On a valid ring whose cursor lies inside the buffer, the locked chunk
      is the one after the playing chunk, wrapping around, and lies wholly
      in the buffer; with at least two chunks it is never the playing one. */
  lemma LockedChunkFollowsPlaying(r: Ring, cursor: u32)
    requires Valid(r)
    requires cursor < |r.contents|
    ensures var r' := GetAudioBuf(r, Some(cursor), true).0;
            r'.playing < r.numBuffers
            && r'.locked == Some((r'.playing + 1) % r.numBuffers * r.mixlen)
            && r'.locked.value + r.mixlen <= |r.contents|
            && (r.numBuffers >= 2 ==> (r'.playing + 1) % r.numBuffers != r'.playing)
  {
    var n, m := r.numBuffers, r.mixlen as nat;
    var p := cursor / r.mixlen;
    DivBelow(cursor, m, n);
    var k := (p + 1) % n;
    NextChunkFits(k, n, m);
    assert U32(p + 1) == p + 1;
    assert U32(k * m) == k * m;
  }

  /** A position inside n chunks of m bytes lies in one of the n chunks. */
  lemma DivBelow(x: nat, m: nat, n: nat)
    requires m > 0 && x < n * m
    ensures x / m < n
  {
    assert x == (x / m) * m + x % m;
    if x / m >= n {
      MulLe(n, x / m, m);
    }
  }

  /** The chunk k of n chunks of m bytes ends inside the buffer. */
  lemma NextChunkFits(k: nat, n: nat, m: nat)
    requires k < n
    ensures k * m + m <= n * m
  {
    MulLe(k + 1, n, m);
  }

  /** Multiplication by a natural number keeps order. */
  lemma MulLe(a: nat, b: nat, m: nat)
    requires a <= b
    ensures a * m <= b * m
  {
    assert b * m == a * m + (b - a) * m;
  }

  /** The cycle fetch-then-play unlocks exactly the chunk that was locked,
      `mixlen` bytes at the chunk after the playing one. */
  lemma PlayUnlocksLockedChunk(r: Ring, cursor: u32)
    requires Valid(r)
    requires cursor < |r.contents|
    ensures var r' := GetAudioBuf(r, Some(cursor), true).0;
            PlayAudio(r') == Some(Unlock((r'.playing + 1) % r.numBuffers * r.mixlen, r.mixlen))
  {
    LockedChunkFollowsPlaying(r, cursor);
  }

  /** Fetching keeps a ring valid. */
  lemma GetAudioBufKeepsValid(r: Ring, position: Option<u32>, lockOk: bool)
    requires Valid(r)
    ensures Valid(GetAudioBuf(r, position, lockOk).0)
  {
  }

  // ------------------------------------------------------------------ wait

  /** One round of the wait loop, as the hardware answers it: the buffer was
      found stopped and restarting it did or did not work, or it was running
      and the cursor query gave a position or failed. */
  datatype Tick = Stopped(restartOk: bool) | Running(position: Option<u32>)

  /** Why the wait ended: no buffer, a failed cursor query, a failed restart,
      the cursor reaching another chunk, or (in the model only) the end of
      the given rounds. */
  datatype WaitExit = NoBuffer | PositionFailed | PlayFailed | ChunkChanged | OutOfTicks

  /** A wait outcome and the number of rounds it consumed. */
  datatype Wait = Wait(exit: WaitExit, used: nat)

  /** A round after which the loop goes on: a successful restart, or a
      cursor still inside the playing chunk. */
  predicate Stays(t: Tick, mixlen: u32, playing: u32)
    requires mixlen > 0
  {
    t == Stopped(true) || (t.Running? && t.position.Some? && t.position.value / mixlen == playing)
  }

  /** The wait loop from round `from` on: it ends at the first round that
      does not stay, and the kind of that round says why. */
  function WaitLoop(mixlen: u32, playing: u32, ticks: seq<Tick>, from: nat): (w: Wait)
    requires mixlen > 0 && from <= |ticks|
    ensures from <= w.used <= |ticks|
    ensures w.exit in {PositionFailed, PlayFailed, ChunkChanged, OutOfTicks}
    ensures w.exit == OutOfTicks <==> forall j :: from <= j < |ticks| ==> Stays(ticks[j], mixlen, playing)
    ensures w.exit == OutOfTicks ==> w.used == |ticks|
    ensures w.exit != OutOfTicks ==>
              from < w.used && !Stays(ticks[w.used - 1], mixlen, playing)
              && forall j :: from <= j < w.used - 1 ==> Stays(ticks[j], mixlen, playing)
    ensures w.exit == PlayFailed ==> ticks[w.used - 1] == Stopped(false)
    ensures w.exit == PositionFailed ==> ticks[w.used - 1] == Running(None)
    ensures w.exit == ChunkChanged ==>
              ticks[w.used - 1].Running? && ticks[w.used - 1].position.Some?
              && ticks[w.used - 1].position.value / mixlen != playing
    decreases |ticks| - from
  {
    if from == |ticks| then Wait(OutOfTicks, from)
    else
      match ticks[from]
      case Stopped(ok) =>
        if ok then WaitLoop(mixlen, playing, ticks, from + 1) else Wait(PlayFailed, from + 1)
      case Running(None) => Wait(PositionFailed, from + 1)
      case Running(Some(cursor)) =>
        if cursor / mixlen == playing then WaitLoop(mixlen, playing, ticks, from + 1)
        else Wait(ChunkChanged, from + 1)
  }

  /** The busy wait: nothing without a buffer; otherwise the cursor is read
      once and, while it stays in the playing chunk, the loop rounds follow. */
  function WaitAudio(r: Ring, first: Option<u32>, ticks: seq<Tick>): (w: Wait)
    requires r.mixbuf.Null? || r.mixlen > 0
    ensures w.exit == NoBuffer <==> r.mixbuf.Null?
    ensures r.mixbuf.Null? ==> w.used == 0
    ensures !r.mixbuf.Null? && first.None? ==> w == Wait(PositionFailed, 0)
    ensures !r.mixbuf.Null? && first.Some? && first.value / r.mixlen != r.playing ==> w == Wait(ChunkChanged, 0)
    ensures !r.mixbuf.Null? && first.Some? && first.value / r.mixlen == r.playing ==>
              w == WaitLoop(r.mixlen, r.playing, ticks, 0)
  {
    if r.mixbuf.Null? then Wait(NoBuffer, 0)
    else match first
      case None => Wait(PositionFailed, 0)
      case Some(cursor) =>
        if cursor / r.mixlen != r.playing then Wait(ChunkChanged, 0)
        else WaitLoop(r.mixlen, r.playing, ticks, 0)
  }

  /** Every cursor reading lies in the first `bytes` bytes of the buffer. */
  predicate CursorsWithin(first: Option<u32>, ticks: seq<Tick>, bytes: nat)
  {
    (first.Some? ==> first.value < bytes)
    && forall j :: 0 <= j < |ticks| && ticks[j].Running? && ticks[j].position.Some? ==> ticks[j].position.value < bytes
  }

  /** With a single chunk, a wait after a fetch never sees the chunk change:
      every cursor inside the buffer is in chunk 0, which is the playing one. */
  lemma SingleChunkWaitNeverAdvances(r: Ring, cursor: u32, lockOk: bool, first: Option<u32>, ticks: seq<Tick>)
    requires Valid(r) && r.numBuffers == 1
    requires cursor < |r.contents|
    requires CursorsWithin(first, ticks, |r.contents|)
    ensures WaitAudio(GetAudioBuf(r, Some(cursor), lockOk).0, first, ticks).exit != ChunkChanged
  {
    var m := r.mixlen;
    assert |r.contents| == m;
    DivSmall(cursor, m);
    var r' := GetAudioBuf(r, Some(cursor), lockOk).0;
    assert r'.playing == 0 && r'.mixlen == m && r'.mixbuf.Live?;
    if first.Some? {
      DivSmall(first.value, m);
      assert CursorsWithin(None, ticks, m);
      WithinFirstChunk(m, ticks, WaitLoop(m, 0, ticks, 0));
    }
  }

  /** A loop whose cursors all lie in the first chunk does not see chunk 0 end. */
  lemma WithinFirstChunk(m: u32, ticks: seq<Tick>, w: Wait)
    requires m > 0
    requires CursorsWithin(None, ticks, m)
    requires w == WaitLoop(m, 0, ticks, 0)
    ensures w.exit != ChunkChanged
  {
    if w.exit == ChunkChanged {
      var t := ticks[w.used - 1];
      DivSmall(t.position.value, m);
    }
  }

  /** A position inside the first chunk is in chunk 0. */
  lemma DivSmall(x: nat, m: nat)
    requires x < m
    ensures x / m == 0
  {
  }

  // --------------------------------------------------------- drain / close

  /** The bytes of `c` with `length` bytes from `offset` on set to `byte`. */
  function FillBytes(c: seq<Option<u8>>, offset: nat, length: nat, byte: u8): (r: seq<Option<u8>>)
    ensures |r| == |c|
    ensures forall i :: 0 <= i < |c| && offset <= i < offset + length ==> r[i] == Some(byte)
    ensures forall i :: 0 <= i < |c| && !(offset <= i < offset + length) ==> r[i] == c[i]
  {
    seq(|c|, i requires 0 <= i < |c| => if offset <= i < offset + length then Some(byte) else c[i])
  }

  /** What draining leaves: the ring, the unlock made, the final wait, and
      whether the buffer was stopped. */
  datatype Drained = Drained(ring: Ring, unlocked: Option<Unlock>, wait: Wait, stopped: bool)

  /** Draining: fetch the next chunk and, if one was locked, fill it with
      silence and play it; then wait for the playing chunk to end and stop
      the buffer if there is one. */
  function WaitDone(r: Ring, position: Option<u32>, lockOk: bool, first: Option<u32>, ticks: seq<Tick>): (d: Drained)
    requires Valid(r)
    ensures Valid(d.ring) && d.stopped
    ensures d.ring == GetAudioBuf(r, position, lockOk).0.(contents := d.ring.contents)
    ensures d.ring.locked.None? ==> d.ring.contents == r.contents && d.unlocked.None?
    ensures d.ring.locked.Some? ==>
              d.unlocked == Some(Unlock(d.ring.locked.value, r.mixlen))
              && d.ring.contents == FillBytes(r.contents, d.ring.locked.value, r.mixlen, r.silence)
    ensures d.wait == WaitAudio(d.ring, first, ticks)
  {
    var (r1, stream) := GetAudioBuf(r, position, lockOk);
    var r2 := if stream.Some? then r1.(contents := FillBytes(r1.contents, stream.value, r1.mixlen, r1.silence)) else r1;
    var u := if stream.Some? then PlayAudio(r2) else None;
    Drained(r2, u, WaitAudio(r2, first, ticks), !r2.mixbuf.Null?)
  }

  /** Draining a second time with the same hardware answers changes nothing more. */
  lemma DrainIdempotent(r: Ring, position: Option<u32>, lockOk: bool, first: Option<u32>, ticks: seq<Tick>)
    requires Valid(r)
    ensures var d := WaitDone(r, position, lockOk, first, ticks);
            WaitDone(d.ring, position, lockOk, first, ticks) == d
  {
    var d := WaitDone(r, position, lockOk, first, ticks);
    var d2 := WaitDone(d.ring, position, lockOk, first, ticks);
    assert d2.ring.contents == d.ring.contents;
    assert d2.ring == d.ring;
  }

  /** On a valid ring with a cursor inside the buffer, draining fills exactly
      the chunk after the playing one with silence and leaves the playing
      chunk alone when there are at least two chunks. */
  lemma DrainSilencesNextChunk(r: Ring, cursor: u32, first: Option<u32>, ticks: seq<Tick>)
    requires Valid(r) && r.numBuffers >= 2
    requires cursor < |r.contents|
    ensures var d := WaitDone(r, Some(cursor), true, first, ticks);
            var p := d.ring.playing;
            var next := (p + 1) % r.numBuffers;
            |d.ring.contents| == |r.contents| && next * r.mixlen + r.mixlen <= |r.contents|
            && ChunkFilled(d.ring.contents, next, r.mixlen as nat, r.silence)
            && ChunkKept(d.ring.contents, r.contents, p, r.mixlen as nat)
  {
    LockedChunkFollowsPlaying(r, cursor);
    var d := WaitDone(r, Some(cursor), true, first, ticks);
    var m := r.mixlen as nat;
    var p := d.ring.playing;
    var next := (p + 1) % r.numBuffers;
    var off := next * m;
    assert d.ring.locked == Some(off);
    assert d.ring.contents == FillBytes(r.contents, off, m, r.silence);
    FillOneChunk(r.contents, next, p, m, r.silence);
  }

  /** Every byte of chunk `k` (of `m` bytes) that lies in `c` is `byte`. */
  predicate ChunkFilled(c: seq<Option<u8>>, k: nat, m: nat, byte: u8)
  {
    forall i :: k * m <= i < k * m + m && i < |c| ==> c[i] == Some(byte)
  }

  /** Every byte of chunk `k` (of `m` bytes) is the same in `after` as in `before`. */
  predicate ChunkKept(after: seq<Option<u8>>, before: seq<Option<u8>>, k: nat, m: nat)
  {
    forall i :: k * m <= i < k * m + m && i < |after| && i < |before| ==> after[i] == before[i]
  }

  /** Filling chunk `k` of a buffer of whole chunks sets every byte of that
      chunk and leaves every byte of another chunk `q` alone. */
  lemma FillOneChunk(c: seq<Option<u8>>, k: nat, q: nat, m: nat, byte: u8)
    requires m > 0 && k != q && k * m + m <= |c|
    ensures ChunkFilled(FillBytes(c, k * m, m, byte), k, m, byte)
    ensures ChunkKept(FillBytes(c, k * m, m, byte), c, q, m)
  {
    ChunksDisjoint(q, k, m);
  }

  /** Two different chunks do not overlap. */
  lemma ChunksDisjoint(a: nat, b: nat, m: nat)
    requires a != b && m > 0
    ensures a * m + m <= b * m || b * m + m <= a * m
  {
    if a < b {
      assert (a + 1) * m <= b * m;
    } else {
      assert (b + 1) * m <= a * m;
    }
  }

  /** A call the close makes to give something back to the system. */
  datatype Release = BufferRelease(id: Handle) | EventClose(id: Handle) | SoundRelease(id: Handle)

  /** The handle a non-NULL buffer pointer holds, released or not. */
  function PointerId(b: BufRef): Handle
    requires !b.Null?
  {
    b.id
  }

  /** Closing the device: nothing without a DirectSound object; otherwise the
      buffer (when its pointer is non-NULL), the notification event (when
      present) and the DirectSound object are released in that order and
      their pointers set to NULL. */
  function CloseAudio(r: Ring): (c: (Ring, seq<Release>))
    ensures r.sound.None? ==> c == (r, [])
    ensures r.sound.Some? ==> c.0 == r.(sound := None, mixbuf := Null, audioEvent := None)
    ensures r.sound.Some? ==>
              c.1 == (if r.mixbuf.Null? then [] else [BufferRelease(PointerId(r.mixbuf))])
                     + (if r.audioEvent.None? then [] else [EventClose(r.audioEvent.value)])
                     + [SoundRelease(r.sound.value)]
  {
    if r.sound.None? then (r, [])
    else
      var buffer := if r.mixbuf.Null? then [] else [BufferRelease(PointerId(r.mixbuf))];
      var event := if r.audioEvent.None? then [] else [EventClose(r.audioEvent.value)];
      (r.(sound := None, mixbuf := Null, audioEvent := None), buffer + event + [SoundRelease(r.sound.value)])
  }

  /** A second close releases nothing and changes nothing. */
  lemma CloseIdempotent(r: Ring)
    ensures CloseAudio(CloseAudio(r).0) == (CloseAudio(r).0, [])
  {
  }

  /** Closing a valid ring releases its live buffer and its DirectSound
      object, each exactly once. */
  lemma CloseReleasesOnce(r: Ring)
    requires Valid(r)
    ensures multiset(CloseAudio(r).1)[BufferRelease(r.mixbuf.id)] == 1
    ensures multiset(CloseAudio(r).1)[SoundRelease(r.sound.value)] == 1
  {
  }

  // --------------------------------------------------------------- finding

  /** The primary set-up as written accepts a buffer of exactly one chunk, so
      the open as written succeeds with a one-chunk ring on which the chunk
      locked for mixing is the chunk being played; the corrected rule refuses
      that buffer and the open falls back to two secondary chunks. */
  lemma SingleChunkPrimaryAccepted(r: Ring, secondary: SecondaryEnv)
    requires r.sound.Some?
    ensures var env := PrimaryEnv(true, Some(1), Some(4096), true);
            var spec := AudioSpec(44100, AUDIO_S16, 2, 4096);
            var o := OpenAudioAsWritten(r, spec, true, env, secondary);
            CreatePrimaryAsWritten(Null, 4096, env).numChunks == 1
            && o.status == 0 && o.ring.numBuffers == 1 && Valid(o.ring)
            && LockOffset(o.ring.playing, o.ring.numBuffers, o.ring.mixlen) == o.ring.playing * o.ring.mixlen
            && CreatePrimary(Null, 4096, env).numChunks == -1
            && (OpenAudio(r, spec, true, env, secondary).status == 0 ==>
                  OpenAudio(r, spec, true, env, secondary).ring.numBuffers == SecondaryChunks)
  {
  }
}
