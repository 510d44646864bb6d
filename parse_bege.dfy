/** Decoder for the binary trigger records of the Soudan BeGe data
    acquisition. A record holds six 8000-sample waveforms stored as three
    interleaved pairs, plus a 16-byte chunk with the timestamp and two pulser
    words, every 32-bit word in network (big-endian) byte order. */
module ParseBeGe {
  import opened Arith

  /** Byte order of the machine running the decoder: `ntohl` is the identity
      on a big-endian host and reverses the four bytes on a little-endian one. */
  datatype ByteOrder = BigEndianHost | LittleEndianHost

  datatype ParseError = FileCorrupted

  datatype Result<T> = Ok(value: T) | Err(error: ParseError)

  // The record layout fixed in `main`.
  const WaveformLength: nat := 8000
  const ExtraBytes: nat := 16
  const WaveformWordLength: nat := 4
  const NumWaveformsPerTrigger: nat := 6
  const TriggerEventSizeInBytes: nat :=
    WaveformWordLength * NumWaveformsPerTrigger * WaveformLength + ExtraBytes

  /** Bytes taken by one interleaved waveform pair. */
  const PairBytes: nat := 2 * WaveformLength * WaveformWordLength

  /** Where `main` reads the pulser/time chunk and the second and third pairs. */
  const ChunkOffset: nat := PairBytes
  const SecondPairOffset: nat := ChunkOffset + ExtraBytes
  const ThirdPairOffset: nat := SecondPairOffset + PairBytes

  // ---------------------------------------------------------------------
  // Words and their bytes

  /** The 32-bit value whose bytes, most significant first, are b0, b1, b2, b3. */
  function WordOfBytes(b0: byte, b1: byte, b2: byte, b3: byte): uint32
  {
    (b0 as int * 0x100_0000 + b1 as int * 0x1_0000 + b2 as int * 0x100 + b3 as int) as uint32
  }

  /** Byte `k` of `w`, counting from the most significant (0) to the least (3). */
  function ByteOfWord(w: uint32, k: nat): byte
    requires k < 4
  {
    if k == 0 then (w as int / 0x100_0000) as byte
    else if k == 1 then ((w as int / 0x1_0000) % 0x100) as byte
    else if k == 2 then ((w as int / 0x100) % 0x100) as byte
    else (w as int % 0x100) as byte
  }

  /** Splitting a word built from four bytes gives those bytes back. */
  lemma {:induction false} BytesOfWordOfBytes(b0: byte, b1: byte, b2: byte, b3: byte)
    ensures ByteOfWord(WordOfBytes(b0, b1, b2, b3), 0) == b0
    ensures ByteOfWord(WordOfBytes(b0, b1, b2, b3), 1) == b1
    ensures ByteOfWord(WordOfBytes(b0, b1, b2, b3), 2) == b2
    ensures ByteOfWord(WordOfBytes(b0, b1, b2, b3), 3) == b3
  {
    var w := WordOfBytes(b0, b1, b2, b3) as int;
    DivModUnique(w, 0x100_0000, b0 as int, b1 as int * 0x1_0000 + b2 as int * 0x100 + b3 as int);
    DivModUnique(w, 0x1_0000, b0 as int * 0x100 + b1 as int, b2 as int * 0x100 + b3 as int);
    DivModUnique(b0 as int * 0x100 + b1 as int, 0x100, b0 as int, b1 as int);
    DivModUnique(w, 0x100, b0 as int * 0x1_0000 + b1 as int * 0x100 + b2 as int, b3 as int);
    DivModUnique(b0 as int * 0x1_0000 + b1 as int * 0x100 + b2 as int, 0x100,
                 b0 as int * 0x100 + b1 as int, b2 as int);
  }

  /** Rebuilding a word from its four bytes gives the word back. */
  lemma {:induction false} WordOfBytesOfWord(w: uint32)
    ensures WordOfBytes(ByteOfWord(w, 0), ByteOfWord(w, 1), ByteOfWord(w, 2), ByteOfWord(w, 3)) == w
  {
    var x := w as int;
    var hi, lo := x / 0x1_0000, x % 0x1_0000;
    assert x == hi * 0x1_0000 + lo;
    DivModUnique(x, 0x100_0000, hi / 0x100, (hi % 0x100) * 0x1_0000 + lo);
    DivModUnique(x, 0x100, hi * 0x100 + lo / 0x100, lo % 0x100);
    DivModUnique(hi * 0x100 + lo / 0x100, 0x100, hi, lo / 0x100);
  }

  /** The word a host loads from the four bytes of `s` at `off`. */
  function HostWordAt(s: seq<byte>, off: nat, host: ByteOrder): uint32
    requires off + 4 <= |s|
  {
    match host
    case BigEndianHost => WordOfBytes(s[off], s[off + 1], s[off + 2], s[off + 3])
    case LittleEndianHost => WordOfBytes(s[off + 3], s[off + 2], s[off + 1], s[off])
  }

  /** A word read from a slice is the word at the shifted offset. */
  lemma HostWordAtSlice(s: seq<byte>, lo: nat, hi: nat, off: nat, host: ByteOrder)
    requires lo + off + 4 <= hi <= |s|
    ensures HostWordAt(s[lo..hi], off, host) == HostWordAt(s, lo + off, host)
  {
    assert s[lo..hi][off] == s[lo + off] && s[lo..hi][off + 1] == s[lo + off + 1];
    assert s[lo..hi][off + 2] == s[lo + off + 2] && s[lo..hi][off + 3] == s[lo + off + 3];
  }

  /** The network-order (big-endian) value of the four bytes of `s` at `off`. */
  function BigEndianWordAt(s: seq<byte>, off: nat): uint32
    requires off + 4 <= |s|
  {
    WordOfBytes(s[off], s[off + 1], s[off + 2], s[off + 3])
  }

  /** The four bytes a host stores for `w`, lowest address first. */
  function HostBytes(w: uint32, host: ByteOrder): seq<byte>
  {
    match host
    case BigEndianHost => [ByteOfWord(w, 0), ByteOfWord(w, 1), ByteOfWord(w, 2), ByteOfWord(w, 3)]
    case LittleEndianHost => [ByteOfWord(w, 3), ByteOfWord(w, 2), ByteOfWord(w, 1), ByteOfWord(w, 0)]
  }

  /** POSIX `ntohl`: network to host byte order for a 32-bit word. */
  function Ntohl(w: uint32, host: ByteOrder): uint32
  {
    match host
    case BigEndianHost => w
    case LittleEndianHost => WordOfBytes(ByteOfWord(w, 3), ByteOfWord(w, 2), ByteOfWord(w, 1), ByteOfWord(w, 0))
  }

  /** `ntohl` undoes itself, on either host. */
  lemma {:induction false} NtohlInvolutive(w: uint32, host: ByteOrder)
    ensures Ntohl(Ntohl(w, host), host) == w
  {
    if host == LittleEndianHost {
      BytesOfWordOfBytes(ByteOfWord(w, 3), ByteOfWord(w, 2), ByteOfWord(w, 1), ByteOfWord(w, 0));
      WordOfBytesOfWord(w);
    }
  }

  /** Loading a word, converting it with `ntohl` and storing it back leaves
      the four bytes reversed on a little-endian host, unchanged on a
      big-endian one. */
  lemma {:induction false} NtohlInPlace(s: seq<byte>, off: nat, host: ByteOrder)
    requires off + 4 <= |s|
    ensures HostBytes(Ntohl(HostWordAt(s, off, host), host), host) ==
            if host == LittleEndianHost then [s[off + 3], s[off + 2], s[off + 1], s[off]]
            else s[off..off + 4]
  {
    var w := BigEndianWordAt(s, off);
    BytesOfWordOfBytes(s[off], s[off + 1], s[off + 2], s[off + 3]);
    if host == LittleEndianHost {
      BytesOfWordOfBytes(s[off + 3], s[off + 2], s[off + 1], s[off]);
    }
  }

  // ---------------------------------------------------------------------
  // swap_buffer

  /** `s` after every whole 32-bit word among its first `length` bytes has
      gone through `ntohl` in place. */
  function SwappedBytes(s: seq<byte>, length: nat, host: ByteOrder): (r: seq<byte>)
    requires length <= |s|
    ensures |r| == |s|
  {
    seq(|s|, i requires 0 <= i < |s| =>
      if host == LittleEndianHost && i < 4 * (length / 4) then s[4 * (i / 4) + 3 - i % 4] else s[i])
  }

  /** After the swap, whole word `k` loads as the big-endian value of the
      original bytes 4k..4k+3, and the bytes past the last whole word are untouched. */
  lemma {:induction false} SwappedWordIsNetworkValue(s: seq<byte>, length: nat, host: ByteOrder, k: nat)
    requires length <= |s|
    requires 4 * k + 4 <= 4 * (length / 4)
    ensures HostWordAt(SwappedBytes(s, length, host), 4 * k, host) == BigEndianWordAt(s, 4 * k)
  {
    SwappedGroup(s, length, host, k);
  }

  /** The trailing bytes after the last whole word keep their value. */
  lemma {:induction false} SwappedTailUntouched(s: seq<byte>, length: nat, host: ByteOrder, i: nat)
    requires length <= |s| && 4 * (length / 4) <= i < |s|
    ensures SwappedBytes(s, length, host)[i] == s[i]
  {
  }

  /** Swapping twice restores the original buffer. */
  lemma {:induction false} SwapTwiceRestores(s: seq<byte>, length: nat, host: ByteOrder)
    requires length <= |s|
    ensures SwappedBytes(SwappedBytes(s, length, host), length, host) == s
  {
    var r := SwappedBytes(s, length, host);
    var r2 := SwappedBytes(r, length, host);
    forall i | 0 <= i < |s|
      ensures r2[i] == s[i]
    {
      if host == LittleEndianHost && i < 4 * (length / 4) {
        var j := 4 * (i / 4) + 3 - i % 4;
        assert j / 4 == i / 4 && j % 4 == 3 - i % 4;
        assert r[j] == s[i];
      }
    }
  }

  /** Byte by byte, whole word `i` of the swapped buffer. */
  lemma {:induction false} SwappedGroup(s: seq<byte>, length: nat, host: ByteOrder, i: nat)
    requires length <= |s| && 4 * i + 4 <= 4 * (length / 4)
    ensures var r := SwappedBytes(s, length, host);
      if host == LittleEndianHost then
        r[4 * i] == s[4 * i + 3] && r[4 * i + 1] == s[4 * i + 2] &&
        r[4 * i + 2] == s[4 * i + 1] && r[4 * i + 3] == s[4 * i]
      else
        r[4 * i] == s[4 * i] && r[4 * i + 1] == s[4 * i + 1] &&
        r[4 * i + 2] == s[4 * i + 2] && r[4 * i + 3] == s[4 * i + 3]
  {
  }

  /** The first `i` whole words of `cur` are swapped, the rest of `cur` is
      still `original`. */
  ghost predicate SwappedUpTo(cur: seq<byte>, original: seq<byte>, length: nat, host: ByteOrder, i: nat)
    requires length <= |original|
  {
    |cur| == |original| &&
    (forall j :: 0 <= j < 4 * i && j < |cur| ==> cur[j] == SwappedBytes(original, length, host)[j]) &&
    (forall j :: 4 * i <= j < |cur| ==> cur[j] == original[j])
  }

  /** Loading whole word `i` of a partly swapped buffer, converting it and
      storing it back gives the word's swapped bytes. */
  lemma {:induction false} SwapOneWord(cur: seq<byte>, original: seq<byte>, length: nat, host: ByteOrder, i: nat)
    requires length <= |original| && 4 * i + 4 <= 4 * (length / 4)
    requires SwappedUpTo(cur, original, length, host, i)
    ensures HostBytes(Ntohl(HostWordAt(cur, 4 * i, host), host), host) == SwappedBytes(original, length, host)[4 * i..4 * i + 4]
  {
    var o := 4 * i;
    var reversed := if host == LittleEndianHost then [original[o + 3], original[o + 2], original[o + 1], original[o]]
                    else original[o..o + 4];
    assert HostWordAt(cur, o, host) == HostWordAt(original, o, host) by {
      assert cur[o] == original[o] && cur[o + 1] == original[o + 1];
      assert cur[o + 2] == original[o + 2] && cur[o + 3] == original[o + 3];
    }
    assert HostBytes(Ntohl(HostWordAt(original, o, host), host), host) == reversed by {
      NtohlInPlace(original, o, host);
    }
    assert SwappedBytes(original, length, host)[o..o + 4] == reversed by {
      SwappedGroup(original, length, host, i);
    }
  }

  /** Storing the swapped bytes of word `i` extends the swapped prefix by one word. */
  lemma {:induction false} ExtendSwapped(cur: seq<byte>, original: seq<byte>, length: nat, host: ByteOrder, i: nat,
                                         stored: seq<byte>)
    requires length <= |original| && 4 * i + 4 <= |original|
    requires SwappedUpTo(cur, original, length, host, i)
    requires stored == SwappedBytes(original, length, host)[4 * i..4 * i + 4]
    ensures SwappedUpTo(cur[4 * i := stored[0]][4 * i + 1 := stored[1]][4 * i + 2 := stored[2]][4 * i + 3 := stored[3]],
                        original, length, host, i + 1)
  {
    var next := cur[4 * i := stored[0]][4 * i + 1 := stored[1]][4 * i + 2 := stored[2]][4 * i + 3 := stored[3]];
    var target := SwappedBytes(original, length, host);
    forall j | 0 <= j < 4 * (i + 1) && j < |next|
      ensures next[j] == target[j]
    {
      if j >= 4 * i {
        assert next[j] == stored[j - 4 * i];
      }
    }
  }

  /** Once every whole word is converted, the buffer is the swapped buffer. */
  lemma {:induction false} SwapAllWords(cur: seq<byte>, original: seq<byte>, length: nat, host: ByteOrder)
    requires length <= |original|
    requires SwappedUpTo(cur, original, length, host, length / 4)
    ensures cur == SwappedBytes(original, length, host)
  {
    forall j | 0 <= j < |cur|
      ensures cur[j] == SwappedBytes(original, length, host)[j]
    {
      if j >= 4 * (length / 4) {
        SwappedTailUntouched(original, length, host, j);
      }
    }
  }

  /** `swap_buffer`: converts each whole 32-bit word of the first `length`
      bytes from network to host order, in place. */
  method SwapBuffer(buffer: array<byte>, length: nat, host: ByteOrder)
    requires length <= buffer.Length
    modifies buffer
    ensures buffer[..] == SwappedBytes(old(buffer[..]), length, host)
  {
    ghost var original := buffer[..];
    var words := length / WaveformWordLength;
    var i := 0;
    while i < words
      invariant 0 <= i <= words
      invariant SwappedUpTo(buffer[..], original, length, host, i)
    {
      ghost var before := buffer[..];
      var stored := HostBytes(Ntohl(HostWordAt(buffer[4 * i..4 * i + 4], 0, host), host), host);
      assert HostWordAt(buffer[4 * i..4 * i + 4], 0, host) == HostWordAt(before, 4 * i, host);
      SwapOneWord(before, original, length, host, i);
      ExtendSwapped(before, original, length, host, i, stored);
      buffer[4 * i] := stored[0];
      buffer[4 * i + 1] := stored[1];
      buffer[4 * i + 2] := stored[2];
      buffer[4 * i + 3] := stored[3];
      assert buffer[..] == before[4 * i := stored[0]][4 * i + 1 := stored[1]][4 * i + 2 := stored[2]][4 * i + 3 := stored[3]];
      i := i + 1;
    }
    SwapAllWords(buffer[..], original, length, host);
  }

  // ---------------------------------------------------------------------
  // read_waveforms and read_pulser_chunk_plus_datetime

  /** Column `phase` (0 or 1) of `count` interleaved word pairs in `s`:
      word 2i + phase for each i, as the host loads it. */
  function HostColumn(s: seq<byte>, count: nat, phase: nat, host: ByteOrder): (c: seq<uint32>)
    requires phase < 2 && 8 * count <= |s|
    ensures |c| == count
  {
    seq(count, i requires 0 <= i < count => HostWordAt(s, 8 * i + 4 * phase, host))
  }

  /** Word `i` of a column of the pairs at `position` is the host word at
      byte `position + 8 * i + 4 * phase`. */
  lemma ColumnWord(s: seq<byte>, position: nat, count: nat, phase: nat, host: ByteOrder, i: nat)
    requires phase < 2 && i < count && position + 8 * count <= |s|
    ensures HostColumn(s[position..position + 8 * count], count, phase, host)[i] ==
            HostWordAt(s, position + 8 * i + 4 * phase, host)
  {
    HostWordAtSlice(s, position, position + 8 * count, 8 * i + 4 * phase, host);
  }

  /** `read_waveforms`: splits `lengthOfWaveforms` interleaved word pairs
      (8 bytes each: two words of `WaveformWordLength` bytes) starting at
      `position` into two waveforms and returns the position just
      past them. Samples are kept as the raw 32-bit words. */
  method ReadWaveforms(buffer: array<byte>, position: nat, lengthOfWaveforms: nat, host: ByteOrder)
    returns (waveformOne: array<uint32>, waveformTwo: array<uint32>, next: nat)
    requires position + 8 * lengthOfWaveforms <= buffer.Length
    ensures next == position + 8 * lengthOfWaveforms
    ensures waveformOne[..] == HostColumn(buffer[position..next], lengthOfWaveforms, 0, host)
    ensures waveformTwo[..] == HostColumn(buffer[position..next], lengthOfWaveforms, 1, host)
  {
    next := position + 8 * lengthOfWaveforms;
    ghost var bytes := buffer[..];
    waveformOne := new uint32[lengthOfWaveforms];
    waveformTwo := new uint32[lengthOfWaveforms];
    var i := 0;
    while i < waveformOne.Length
      invariant 0 <= i <= lengthOfWaveforms
      invariant ColumnFilled(waveformOne[..], bytes, position, 0, host, i)
      invariant ColumnFilled(waveformTwo[..], bytes, position, 1, host, i)
    {
      var one := HostWordAt(buffer[..], position + 8 * i, host);
      var two := HostWordAt(buffer[..], position + 8 * i + 4, host);
      ghost var beforeOne, beforeTwo := waveformOne[..], waveformTwo[..];
      waveformOne[i] := one;
      waveformTwo[i] := two;
      assert waveformOne[..] == beforeOne[i := one] && waveformTwo[..] == beforeTwo[i := two];
      ColumnFilledStep(beforeOne, bytes, position, 0, host, i, one);
      ColumnFilledStep(beforeTwo, bytes, position, 1, host, i, two);
      i := i + 1;
    }
    ColumnFilledAll(waveformOne[..], bytes, position, 0, host, lengthOfWaveforms);
    ColumnFilledAll(waveformTwo[..], bytes, position, 1, host, lengthOfWaveforms);
  }

  /** The first `i` words of `a` are column `phase` of the pairs at `position`. */
  ghost predicate ColumnFilled(a: seq<uint32>, bytes: seq<byte>, position: nat, phase: nat, host: ByteOrder, i: nat)
    requires i <= |a| && position + 8 * i <= |bytes| && phase < 2
  {
    forall k :: 0 <= k < i ==> a[k] == HostWordAt(bytes, position + 8 * k + 4 * phase, host)
  }

  lemma ColumnFilledStep(a: seq<uint32>, bytes: seq<byte>, position: nat, phase: nat, host: ByteOrder, i: nat, w: uint32)
    requires i < |a| && position + 8 * i + 8 <= |bytes| && phase < 2
    requires ColumnFilled(a, bytes, position, phase, host, i)
    requires w == HostWordAt(bytes, position + 8 * i + 4 * phase, host)
    ensures ColumnFilled(a[i := w], bytes, position, phase, host, i + 1)
  {
  }

  lemma {:induction false} ColumnFilledAll(a: seq<uint32>, bytes: seq<byte>, position: nat, phase: nat, host: ByteOrder, count: nat)
    requires count == |a| && position + 8 * count <= |bytes| && phase < 2
    requires ColumnFilled(a, bytes, position, phase, host, count)
    ensures a == HostColumn(bytes[position..position + 8 * count], count, phase, host)
  {
    forall k | 0 <= k < count
      ensures a[k] == HostColumn(bytes[position..position + 8 * count], count, phase, host)[k]
    {
      ColumnWord(bytes, position, count, phase, host, k);
    }
  }

  /** `read_pulser_chunk_plus_datetime`, pulser part: the two pulser words are
      words 2 and 3 of the 16-byte chunk at `position`; the chunk is consumed whole. */
  method ReadPulserChunk(buffer: array<byte>, position: nat, host: ByteOrder)
    returns (pulserChunkOne: uint32, pulserChunkTwo: uint32, next: nat)
    requires position + 4 * WaveformWordLength <= buffer.Length
    ensures next == position + ExtraBytes
    ensures pulserChunkOne == HostWordAt(buffer[position..next], 8, host)
    ensures pulserChunkTwo == HostWordAt(buffer[position..next], 12, host)
  {
    pulserChunkOne := HostWordAt(buffer[..], position + 2 * WaveformWordLength, host);
    pulserChunkTwo := HostWordAt(buffer[..], position + 3 * WaveformWordLength, host);
    next := position + 4 * WaveformWordLength;
  }

  // ---------------------------------------------------------------------
  // One trigger record

  /** A decoded trigger record: waveforms 0..5 in channel order (raw words)
      and the two pulser words. */
  datatype RawEvent = RawEvent(waveforms: seq<seq<uint32>>, pulserChunkOne: uint32, pulserChunkTwo: uint32)

  /** Column `phase` of the waveform pair at `offset` of a record, read as
      network-order words. */
  function WireColumn(raw: seq<byte>, offset: nat, phase: nat): (c: seq<uint32>)
    requires phase < 2 && offset + PairBytes <= |raw|
    ensures |c| == WaveformLength
  {
    seq(WaveformLength, i requires 0 <= i < WaveformLength => BigEndianWordAt(raw, offset + 8 * i + 4 * phase))
  }

  /** The record a file holds, independent of the host: channels 0/1 in the
      first pair, the pulser words at bytes 8 and 12 of the chunk that follows,
      channels 2/3 and 4/5 in the second and third pairs. */
  function RecordFromWire(raw: seq<byte>): RawEvent
    requires |raw| == TriggerEventSizeInBytes
  {
    RawEvent([WireColumn(raw, 0, 0), WireColumn(raw, 0, 1),
              WireColumn(raw, SecondPairOffset, 0), WireColumn(raw, SecondPairOffset, 1),
              WireColumn(raw, ThirdPairOffset, 0), WireColumn(raw, ThirdPairOffset, 1)],
             BigEndianWordAt(raw, ChunkOffset + 8), BigEndianWordAt(raw, ChunkOffset + 12))
  }

  /** The layout adds up: three pairs and the chunk fill one record exactly. */
  lemma RecordLayout()
    ensures TriggerEventSizeInBytes == 192016
    ensures ChunkOffset == 64000 && SecondPairOffset == 64016 && ThirdPairOffset == 128016
    ensures ThirdPairOffset + PairBytes == TriggerEventSizeInBytes
  {
  }

  /** After the swap, a column read on the host is the network-order column. */
  lemma {:induction false} HostColumnOfSwapped(raw: seq<byte>, host: ByteOrder, offset: nat, phase: nat)
    requires |raw| == TriggerEventSizeInBytes && phase < 2
    requires offset % 4 == 0 && offset + PairBytes <= |raw|
    ensures HostColumn(SwappedBytes(raw, |raw|, host)[offset..offset + PairBytes], WaveformLength, phase, host)
            == WireColumn(raw, offset, phase)
  {
    var s := SwappedBytes(raw, |raw|, host);
    assert PairBytes == 8 * WaveformLength;
    forall i | 0 <= i < WaveformLength
      ensures HostColumn(s[offset..offset + PairBytes], WaveformLength, phase, host)[i] == WireColumn(raw, offset, phase)[i]
    {
      HostColumnWordOfSwapped(raw, host, offset, phase, i);
    }
  }

  /** Word `i` of a column read on the host after the swap is the
      network-order word at the same place. */
  lemma HostColumnWordOfSwapped(raw: seq<byte>, host: ByteOrder, offset: nat, phase: nat, i: nat)
    requires |raw| == TriggerEventSizeInBytes && phase < 2 && i < WaveformLength
    requires offset % 4 == 0 && offset + PairBytes <= |raw|
    ensures HostColumn(SwappedBytes(raw, |raw|, host)[offset..offset + PairBytes], WaveformLength, phase, host)[i]
            == WireColumn(raw, offset, phase)[i]
  {
    var s := SwappedBytes(raw, |raw|, host);
    var at := offset + 8 * i + 4 * phase;
    var w := offset / 4 + 2 * i + phase;
    assert 4 * w == at by {
      WordIndex(offset, i, phase);
    }
    assert HostColumn(s[offset..offset + PairBytes], WaveformLength, phase, host)[i] == HostWordAt(s, at, host) by {
      ColumnWord(s, offset, WaveformLength, phase, host, i);
    }
    assert HostWordAt(s, 4 * w, host) == BigEndianWordAt(raw, 4 * w) by {
      SwappedWordIsNetworkValue(raw, |raw|, host, w);
    }
  }

  /** Byte `offset + 8i + 4·phase` of a word-aligned pair starts word `offset/4 + 2i + phase`. */
  lemma WordIndex(offset: nat, i: nat, phase: nat)
    requires offset % 4 == 0
    ensures 4 * (offset / 4 + 2 * i + phase) == offset + 8 * i + 4 * phase
  {
  }

  /** The record as the host reads it from `s` after the swap, at the offsets `main` uses. */
  function HostRecord(s: seq<byte>, host: ByteOrder): RawEvent
    requires |s| == TriggerEventSizeInBytes
  {
    RawEvent([HostColumn(s[0..PairBytes], WaveformLength, 0, host),
              HostColumn(s[0..PairBytes], WaveformLength, 1, host),
              HostColumn(s[SecondPairOffset..SecondPairOffset + PairBytes], WaveformLength, 0, host),
              HostColumn(s[SecondPairOffset..SecondPairOffset + PairBytes], WaveformLength, 1, host),
              HostColumn(s[ThirdPairOffset..ThirdPairOffset + PairBytes], WaveformLength, 0, host),
              HostColumn(s[ThirdPairOffset..ThirdPairOffset + PairBytes], WaveformLength, 1, host)],
             HostWordAt(s[ChunkOffset..ChunkOffset + ExtraBytes], 8, host),
             HostWordAt(s[ChunkOffset..ChunkOffset + ExtraBytes], 12, host))
  }

  /** Reading a swapped record on the host gives the network-order record:
      the decoded event does not depend on the host's byte order. */
  lemma {:induction false} HostRecordOfSwapped(raw: seq<byte>, host: ByteOrder)
    requires |raw| == TriggerEventSizeInBytes
    ensures HostRecord(SwappedBytes(raw, |raw|, host), host) == RecordFromWire(raw)
  {
    RecordLayout();
    HostColumnOfSwapped(raw, host, 0, 0);
    HostColumnOfSwapped(raw, host, 0, 1);
    HostColumnOfSwapped(raw, host, SecondPairOffset, 0);
    HostColumnOfSwapped(raw, host, SecondPairOffset, 1);
    HostColumnOfSwapped(raw, host, ThirdPairOffset, 0);
    HostColumnOfSwapped(raw, host, ThirdPairOffset, 1);
    PulserWordOfSwapped(raw, host, 2);
    PulserWordOfSwapped(raw, host, 3);
  }

  /** After the swap, word `w` of the pulser chunk read on the host is the
      network-order word of the original bytes. */
  lemma {:induction false} PulserWordOfSwapped(raw: seq<byte>, host: ByteOrder, w: nat)
    requires |raw| == TriggerEventSizeInBytes && w < 4
    ensures HostWordAt(SwappedBytes(raw, |raw|, host)[ChunkOffset..ChunkOffset + ExtraBytes], 4 * w, host)
            == BigEndianWordAt(raw, ChunkOffset + 4 * w)
  {
    var s := SwappedBytes(raw, |raw|, host);
    var k := ChunkOffset / 4 + w;
    assert 4 * k == ChunkOffset + 4 * w;
    HostWordAtSlice(s, ChunkOffset, ChunkOffset + ExtraBytes, 4 * w, host);
    SwappedWordIsNetworkValue(raw, |raw|, host, k);
  }

  /** One iteration of `main`'s record loop on a host of either byte order:
      swap the buffer, read the first pair, the pulser chunk, then the second
      and third pairs. The decoded record is the network-order reading of the
      original bytes, and the reads consume exactly one record. */
  method DecodeRecord(buffer: array<byte>, host: ByteOrder) returns (event: RawEvent, consumed: nat)
    requires buffer.Length == TriggerEventSizeInBytes
    modifies buffer
    ensures consumed == TriggerEventSizeInBytes
    ensures event == RecordFromWire(old(buffer[..]))
    ensures buffer[..] == SwappedBytes(old(buffer[..]), TriggerEventSizeInBytes, host)
  {
    ghost var raw := buffer[..];
    SwapBuffer(buffer, TriggerEventSizeInBytes, host);
    var w0, w1, nextRead := ReadWaveforms(buffer, 0, WaveformLength, host);
    var chunkOne, chunkTwo, afterChunk := ReadPulserChunk(buffer, nextRead, host);
    var w2, w3, afterSecond := ReadWaveforms(buffer, afterChunk, WaveformLength, host);
    var w4, w5, afterThird := ReadWaveforms(buffer, afterSecond, WaveformLength, host);
    event := RawEvent([w0[..], w1[..], w2[..], w3[..], w4[..], w5[..]], chunkOne, chunkTwo);
    consumed := afterThird;
    assert event == HostRecord(buffer[..], host);
    HostRecordOfSwapped(raw, host);
  }

  // ---------------------------------------------------------------------
  // The file: size check and record loop

  /** `main`'s sanity check: a file whose size is not a whole number of
      records is corrupted; otherwise it holds size / record-size events. */
  function CheckedEventCount(sizeOfFile: nat): (r: Result<nat>)
    ensures r.Ok? <==> sizeOfFile % TriggerEventSizeInBytes == 0
    ensures r.Ok? ==> r.value * TriggerEventSizeInBytes == sizeOfFile
  {
    if sizeOfFile % TriggerEventSizeInBytes != 0 then Err(FileCorrupted)
    else Ok(sizeOfFile / TriggerEventSizeInBytes)
  }

  /** Parses a whole file: the size check, then every record decoded through
      the same buffer, in file order. */
  method ParseFile(file: seq<byte>, host: ByteOrder) returns (r: Result<seq<RawEvent>>)
    ensures r.Err? <==> |file| % TriggerEventSizeInBytes != 0
    ensures r.Ok? ==> |r.value| * TriggerEventSizeInBytes == |file|
    ensures r.Ok? ==> forall k :: 0 <= k < |r.value| ==>
      r.value[k] == RecordFromWire(file[k * TriggerEventSizeInBytes..(k + 1) * TriggerEventSizeInBytes])
  {
    var count := CheckedEventCount(|file|);
    if count.Err? {
      return Err(count.error);
    }
    var numberOfEvents := count.value;
    var dataBuffer := new byte[TriggerEventSizeInBytes];
    var events: seq<RawEvent> := [];
    var numberReadOut := 0;
    while numberReadOut < numberOfEvents
      invariant 0 <= numberReadOut <= numberOfEvents
      invariant RecordsDecoded(events, file, numberReadOut)
    {
      var base := numberReadOut * TriggerEventSizeInBytes;
      forall i | 0 <= i < TriggerEventSizeInBytes {
        dataBuffer[i] := file[base + i];
      }
      assert dataBuffer[..] == file[base..base + TriggerEventSizeInBytes];
      var event, _ := DecodeRecord(dataBuffer, host);
      RecordsDecodedStep(events, file, numberReadOut, event);
      events := events + [event];
      numberReadOut := numberReadOut + 1;
    }
    return Ok(events);
  }

  /** The first `n` records of `file` are decoded into `events`, in order. */
  ghost predicate RecordsDecoded(events: seq<RawEvent>, file: seq<byte>, n: nat) {
    |events| == n && n * TriggerEventSizeInBytes <= |file| &&
    forall k :: 0 <= k < n ==>
      events[k] == RecordFromWire(file[k * TriggerEventSizeInBytes..(k + 1) * TriggerEventSizeInBytes])
  }

  lemma RecordsDecodedStep(events: seq<RawEvent>, file: seq<byte>, n: nat, event: RawEvent)
    requires RecordsDecoded(events, file, n) && (n + 1) * TriggerEventSizeInBytes <= |file|
    requires event == RecordFromWire(file[n * TriggerEventSizeInBytes..(n + 1) * TriggerEventSizeInBytes])
    ensures RecordsDecoded(events + [event], file, n + 1)
  {
  }

  /** The stream after one pass of the record loop body: read one record's
      worth of bytes (a short read leaves the stream at end of file), then
      peek, which raises the end-of-file flag when nothing is left. */
  function ReadThenPeek(position: nat, sizeOfFile: nat): (nat, bool)
    requires position <= sizeOfFile
  {
    if position + TriggerEventSizeInBytes <= sizeOfFile
    then (position + TriggerEventSizeInBytes, position + TriggerEventSizeInBytes == sizeOfFile)
    else (sizeOfFile, true)
  }

  /** `main`'s do-while over records, as written: the body runs before the
      end-of-file test, so an empty file that passes the size check still
      fills one event (from a buffer nothing was read into). */
  method RecordsFilledAsWritten(sizeOfFile: nat) returns (numberReadOut: nat)
    requires sizeOfFile % TriggerEventSizeInBytes == 0
    ensures numberReadOut == if sizeOfFile == 0 then 1 else sizeOfFile / TriggerEventSizeInBytes
    ensures numberReadOut != sizeOfFile / TriggerEventSizeInBytes <==> sizeOfFile == 0
  {
    var position, eof := ReadThenPeek(0, sizeOfFile).0, ReadThenPeek(0, sizeOfFile).1;
    numberReadOut := 1;
    while !eof
      invariant position <= sizeOfFile
      invariant sizeOfFile > 0 ==> position == numberReadOut * TriggerEventSizeInBytes
      invariant sizeOfFile == 0 ==> eof && numberReadOut == 1
      invariant eof <==> position == sizeOfFile
      decreases sizeOfFile - position
    {
      position, eof := ReadThenPeek(position, sizeOfFile).0, ReadThenPeek(position, sizeOfFile).1;
      numberReadOut := numberReadOut + 1;
    }
    if sizeOfFile > 0 {
      DivModUnique(sizeOfFile, TriggerEventSizeInBytes, numberReadOut, 0);
    }
  }

  /** The record loop with the end-of-file test before each read: one event
      per record, none for an empty file. */
  method RecordsFilled(sizeOfFile: nat) returns (numberReadOut: nat)
    requires sizeOfFile % TriggerEventSizeInBytes == 0
    ensures numberReadOut == sizeOfFile / TriggerEventSizeInBytes
  {
    var position, eof := 0, sizeOfFile == 0;
    numberReadOut := 0;
    while !eof
      invariant position <= sizeOfFile
      invariant position == numberReadOut * TriggerEventSizeInBytes
      invariant eof <==> position == sizeOfFile
      decreases sizeOfFile - position
    {
      position, eof := ReadThenPeek(position, sizeOfFile).0, ReadThenPeek(position, sizeOfFile).1;
      numberReadOut := numberReadOut + 1;
    }
    DivModUnique(sizeOfFile, TriggerEventSizeInBytes, numberReadOut, 0);
  }
}
