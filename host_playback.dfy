/**
 * The arithmetic of the host's playback and dump loops: the section sizes of
 * read_enc_metadata and read_enc_chunk, the slot a chunk goes to, the last
 * batch digital_out writes (miPod/src/main.cpp), and the length of the
 * digital output of mb/miPod/src/main.cpp with its write loop.
 */
module HostPlayback {
  import opened Bytes
  import opened Layout
  import H = HostLayout
  import UnprotectSong
  import DrmSchedule

  /** metadata_total_size = NONCE_SIZE + MAC_SIZE + metadata_size. */
  function MetadataSectionSize(metadataSize: int): int {
    H.NONCE_SIZE + H.MAC_SIZE + metadataSize
  }

  /** chunk_total_size = NONCE_SIZE + MAC_SIZE + chunk_size. */
  function ChunkSectionSize(chunkSize: int): int {
    H.NONCE_SIZE + H.MAC_SIZE + chunkSize
  }

  /**
   * Both sections are their ciphertext behind a nonce and a tag, as the
   * offline decoder reads them; at full size they are exactly an
   * encryptedMetadata and an encryptedSongChunk.
   */
  lemma SectionSizes(size: int)
    ensures MetadataSectionSize(size) == UnprotectSong.SECTION_OVERHEAD + size
    ensures ChunkSectionSize(size) == UnprotectSong.SECTION_OVERHEAD + size
    ensures MetadataSectionSize(H.METADATA_SZ) == SizeOf(H.ENCRYPTED_METADATA)
    ensures ChunkSectionSize(H.SONG_CHUNK_SZ) == SizeOf(H.ENCRYPTED_SONG_CHUNK)
  {
    H.EncryptedMetadataLayout();
    H.EncryptedSongChunkLayout();
  }

  /** buffer_loc = i + (ENC_BUFFER_SZ / 2) * buffer_offset. */
  function BufferLoc(i: int, offset: int): int {
    i + (H.ENC_BUFFER_SZ / 2) * offset
  }

  /**
   * With i < 30 and an offset of 0 or 1, the slot lies in the half the
   * offset names, and different (i, offset) pairs give different slots, so a
   * batch fills its half once each.
   */
  lemma BufferLocInHalf(i: int, offset: int, j: int, other: int)
    requires 0 <= i < 30 && (offset == 0 || offset == 1)
    requires 0 <= j < 30 && (other == 0 || other == 1)
    ensures 30 * offset <= BufferLoc(i, offset) < 30 * offset + 30
    ensures 0 <= BufferLoc(i, offset) < H.ENC_BUFFER_SZ
    ensures BufferLoc(i, offset) == BufferLoc(j, other) <==> i == j && offset == other
  {
  }

  /** The slots of one half, filled or written in order. */
  function HalfSlots(offset: int): seq<int> {
    seq(H.ENC_BUFFER_SZ / 2, i => BufferLoc(i, offset))
  }

  /** The two halves are the 60 slots, each once. */
  lemma HalvesCoverBuffer()
    ensures HalfSlots(0) + HalfSlots(1) == seq(H.ENC_BUFFER_SZ, k => k)
  {
  }

  /**
   * last_chunks: total_chunks mod 30, or 30 when that is 0. It is the one
   * number from 1 to 30 that leaves a whole number of 30-chunk batches
   * before it.
   */
  function LastChunks(total: u32): (n: int)
    ensures 1 <= n <= 30
    ensures (total - n) % 30 == 0
  {
    if total % (H.ENC_BUFFER_SZ / 2) == 0 then H.ENC_BUFFER_SZ / 2 else total % (H.ENC_BUFFER_SZ / 2)
  }

  /** Any other count in 1..30 does not leave whole batches before it. */
  lemma LastChunksUnique(total: u32, n: int)
    requires 1 <= n <= 30 && (total - n) % 30 == 0
    ensures n == LastChunks(total)
  {
    var q := (total - n) / 30;
    assert total - n == 30 * q;
    if n == 30 {
      ModOfSum(total, q + 1, 0);
    } else {
      ModOfSum(total, q, n);
    }
  }

  /** Euclidean remainder by 30 is determined by any quotient and remainder in range. */
  lemma ModOfSum(a: int, q: int, r: int)
    requires a == 30 * q + r && 0 <= r < 30
    ensures a % 30 == r
  {
  }

  /** fwrite(&c->songBuffer[SONG_CHUNK_SZ * buffer_loc], length, 1, wfp). */
  datatype Write = Write(start: int, length: int)

  /**
   * The writes after the firmware stopped, miPod/src/main.cpp lines 453-467:
   * last_chunks slots from the half !buffer_offset names, all full but the
   * last, which gets chunk_remainder bytes. C's `!` on the offset is
   * toggle_offset of the firmware.
   */
  function LastBatch(total: u32, remainder: u32, offset: u32): seq<Write> {
    seq(LastChunks(total), i requires 0 <= i < LastChunks(total) =>
      Write(H.SONG_CHUNK_SZ * BufferLoc(i, DrmSchedule.ToggleOffset(offset)),
            if i == LastChunks(total) - 1 then remainder else H.SONG_CHUNK_SZ))
  }

  /** The bytes a list of writes puts in the file. */
  function Written(w: seq<Write>): int {
    if w == [] then 0 else Written(w[..|w| - 1]) + w[|w| - 1].length
  }

  /**
   * The last batch reads the half the offset does not name, slot by slot from
   * its start; only its final write is chunk_remainder long, and it writes
   * 16000 * (last_chunks - 1) + chunk_remainder bytes.
   */
  lemma LastBatchShape(total: u32, remainder: u32, offset: u32)
    ensures |LastBatch(total, remainder, offset)| == LastChunks(total)
    ensures forall i :: 0 <= i < |LastBatch(total, remainder, offset)| ==>
      LastBatch(total, remainder, offset)[i].start == 16000 * (i + (if offset == 0 then 30 else 0))
    ensures forall i :: 0 <= i < |LastBatch(total, remainder, offset)| - 1 ==>
      LastBatch(total, remainder, offset)[i].length == 16000
    ensures LastBatch(total, remainder, offset)[LastChunks(total) - 1].length == remainder
    ensures Written(LastBatch(total, remainder, offset)) == 16000 * (LastChunks(total) - 1) + remainder
  {
    var w := LastBatch(total, remainder, offset);
    FullWrites(w[..|w| - 1]);
    assert w == w[..|w| - 1] + [w[|w| - 1]];
  }

  lemma {:induction false} FullWrites(w: seq<Write>)
    requires forall i :: 0 <= i < |w| ==> w[i].length == 16000
    ensures Written(w) == 16000 * |w|
  {
    if w != [] {
      FullWrites(w[..|w| - 1]);
    }
  }

  /** With a remainder of at most a chunk, every write of the last batch stays inside songBuffer. */
  lemma LastBatchInBuffer(total: u32, remainder: u32, offset: u32)
    requires remainder <= H.SONG_CHUNK_SZ
    ensures forall i :: 0 <= i < |LastBatch(total, remainder, offset)| ==>
      0 <= LastBatch(total, remainder, offset)[i].start
      && LastBatch(total, remainder, offset)[i].start + LastBatch(total, remainder, offset)[i].length <= H.SONG_BUFFER_SZ
  {
    LastBatchShape(total, remainder, offset);
  }

  /**
   * `int length = c->song.file_size + 8`: an unsigned sum, wrapping past
   * 2^32, stored in an int. The same conversion as everywhere in the model.
   */
  function DoutLength(fileSize: u32): i32 {
    I32OfU32(AddU32(fileSize, 8))
  }

  /**
   * The length is the RIFF file_size plus the 8 bytes before it, unless the
   * sum leaves the int range (the dump is then empty) or wraps past 2^32
   * (the dump is then the first few bytes).
   */
  lemma DoutLengthCases(fileSize: u32)
    ensures fileSize < 0x7FFF_FFF8 ==> DoutLength(fileSize) == fileSize + 8
    ensures 0x7FFF_FFF8 <= fileSize < 0xFFFF_FFF8 ==> DoutLength(fileSize) < 0
    ensures 0xFFFF_FFF8 <= fileSize ==> DoutLength(fileSize) == fileSize + 8 - 0x1_0000_0000
  {
  }

  /** The bytes the dump covers: none for a negative length. */
  function DoutBytes(fileSize: u32): nat {
    if DoutLength(fileSize) < 0 then 0 else DoutLength(fileSize)
  }

  /**
   * A write() answer: -1 for an error, or how many of the n requested bytes
   * it took. A regular file never takes none of a non-empty request.
   */
  ghost predicate WriteAnswers(answer: (nat, nat) -> int) {
    forall k: nat, n: nat :: 0 < n ==> answer(k, n) == -1 || 1 <= answer(k, n) <= n
  }

  /**
   * The write loop of digital_out, mb/miPod/src/main.cpp lines 477-495, on
   * the bytes from the start of c->song: call k asks for what is left and
   * gets answer(k, left). Without an error the output is exactly the first
   * file_size + 8 bytes; after an error it is a shorter prefix of them.
   */
  method WriteDout(song: seq<byte>, fileSize: u32, answer: (nat, nat) -> int) returns (out: seq<byte>, ok: bool)
    requires DoutBytes(fileSize) <= |song|
    requires WriteAnswers(answer)
    ensures ok ==> out == song[..DoutBytes(fileSize)]
    ensures !ok ==> out < song[..DoutBytes(fileSize)]
  {
    var length: int := DoutLength(fileSize);
    var written: nat := 0;
    var calls: nat := 0;
    out := [];
    while written < length
      invariant written <= DoutBytes(fileSize)
      invariant out == song[..written]
      decreases length - written
    {
      var wrote := answer(calls, length - written);
      calls := calls + 1;
      if wrote == -1 {
        return out, false;
      }
      out := out + song[written..written + wrote];
      written := written + wrote;
    }
    ok := true;
  }
}
