/**
 * What decrypt_song promises about a container, proved about the stage
 * functions of UnprotectSong (and so, through the ensures of DecryptSong,
 * about the method).
 */
module UnprotectSongLemmas {
  import opened Bytes
  import opened Wrappers
  import opened Aead
  import opened UnprotectSong

  /** The on-disk size of a container whose header announces these two sizes. */
  function ContainerSize(metadataSize: nat, songSize: nat): nat {
    HASH_BYTE_SIZE + ENCRYPTED_WAVE_HEADER_SIZE
    + SECTION_OVERHEAD + metadataSize
    + 28 * (ChunkCounts(songSize).0 + 1) + songSize
  }

  /** The header plaintext, when the header section opens. */
  function HeaderPlain(open: Opener, key: seq<byte>, input: seq<byte>): Option<seq<byte>> {
    var hq := HeaderQuery(input);
    open(key, hq.nonce, HEADER_AAD, hq.ctTag)
  }

  /** A section that fits in the input is read in full; when it opens, its plaintext is ctLen bytes. */
  lemma FullSection(open: Opener, key: seq<byte>, input: seq<byte>, pos: nat, aad: seq<byte>, ctLen: nat)
    requires Conforms(open)
    requires pos + SECTION_OVERHEAD + ctLen <= |input|
    ensures var q := SectionQuery(input, pos, ctLen);
      && q.next == pos + SECTION_OVERHEAD + ctLen
      && (open(key, q.nonce, aad, q.ctTag).Some? ==> |open(key, q.nonce, aad, q.ctTag).value| == ctLen)
  {
    var q := SectionQuery(input, pos, ctLen);
    assert |q.ctTag| == ctLen + MAC_SIZE;
  }

  /** Where the three fields sit in a 48-byte header plaintext. */
  lemma HeaderSlices(p: seq<byte>)
    requires |p| == WAVE_HEADER_SIZE + METADATA_SIZE_ALLOCATION
    ensures Last(p, METADATA_SIZE_ALLOCATION) == p[44..48]
    ensures Take(p, WAVE_HEADER_SIZE) == p[..44]
    ensures Last(Take(p, WAVE_HEADER_SIZE), 4) == p[40..44]
  {
  }

  /**
   * The sizes come from the 48-byte header plaintext: metadata_size from bytes
   * 44..48, song_size from bytes 40..44, and the header written out is bytes 0..44.
   */
  lemma HeaderFields(open: Opener, key: seq<byte>, input: seq<byte>)
    requires Conforms(open)
    requires |input| >= HASH_BYTE_SIZE + ENCRYPTED_WAVE_HEADER_SIZE
    requires HeaderPlain(open, key, input).Some?
    ensures |HeaderPlain(open, key, input).value| == WAVE_HEADER_SIZE + METADATA_SIZE_ALLOCATION
    ensures Decode(open, key, input) == AfterHeader(open, key, input, HASH_BYTE_SIZE + ENCRYPTED_WAVE_HEADER_SIZE, HeaderPlain(open, key, input).value)
    ensures Decode(open, key, input).status != Failed(Header)
    ensures Decode(open, key, input).metadataSize == LittleEndian32(HeaderPlain(open, key, input).value[44..48])
    ensures Decode(open, key, input).songSize == LittleEndian32(HeaderPlain(open, key, input).value[40..44])
    ensures HeaderPlain(open, key, input).value[..44] <= Decode(open, key, input).output
  {
    assert |HeaderQuery(input).ctTag| == ENCRYPTED_WAVE_HEADER_SIZE;
    HeaderSlices(HeaderPlain(open, key, input).value);
  }


  /** The plaintext of the chunk loop only grows: what an earlier iteration wrote stays written. */
  lemma {:induction false} ChunkPlainGrows(open: Opener, key: seq<byte>, input: seq<byte>, start: nat, digest: seq<byte>, m: nat, n: nat)
    requires start <= |input| && m <= n
    ensures Chunks(open, key, input, start, digest, m).plain <= Chunks(open, key, input, start, digest, n).plain
  {
    if m < n {
      ChunkPlainGrows(open, key, input, start, digest, m, n - 1);
    }
  }

  /**
   * When count full chunks fit in the input and none fails, each consumes
   * 28 + 16000 bytes and yields 16000.
   */
  lemma {:induction false} FullChunks(open: Opener, key: seq<byte>, input: seq<byte>, start: nat, digest: seq<byte>, count: nat)
    requires Conforms(open)
    requires start + 16028 * count <= |input|
    requires Chunks(open, key, input, start, digest, count).failed.None?
    ensures Chunks(open, key, input, start, digest, count).next == start + 16028 * count
    ensures |Chunks(open, key, input, start, digest, count).plain| == 16000 * count
  {
    if count > 0 {
      FullChunks(open, key, input, start, digest, count - 1);
      FullSection(open, key, input, Chunks(open, key, input, start, digest, count - 1).next, digest, CHUNK_SIZE);
    }
  }

  /** The metadata plaintext, when the metadata section after the header opens. */
  function MetadataPlain(open: Opener, key: seq<byte>, input: seq<byte>): Option<seq<byte>>
    requires |input| >= HASH_BYTE_SIZE + ENCRYPTED_WAVE_HEADER_SIZE
  {
    open(key, SectionQuery(input, 76, Decode(open, key, input).metadataSize).nonce, METADATA_AAD,
         SectionQuery(input, 76, Decode(open, key, input).metadataSize).ctTag)
  }

  /**
   * Once the header and the metadata have opened, the decode continues from the
   * byte after the metadata section with the 44-byte wave header and the first
   * 32 bytes of the metadata as the chunks' associated data.
   */
  lemma MetadataStage(open: Opener, key: seq<byte>, input: seq<byte>)
    requires Conforms(open)
    requires |input| >= 104 + Decode(open, key, input).metadataSize
    requires HeaderPlain(open, key, input).Some? && MetadataPlain(open, key, input).Some?
    ensures Decode(open, key, input)
         == AfterMetadata(open, key, input, 104 + Decode(open, key, input).metadataSize,
                          HeaderPlain(open, key, input).value[..44],
                          Decode(open, key, input).metadataSize, Decode(open, key, input).songSize,
                          Take(MetadataPlain(open, key, input).value, DIGEST_SIZE))
  {
    HeaderFields(open, key, input);
    HeaderSlices(HeaderPlain(open, key, input).value);
    FullSection(open, key, input, 76, METADATA_AAD, Decode(open, key, input).metadataSize);
  }

  /** When the header opens but the metadata does not, the decode stops there with the 44-byte wave header as output. */
  lemma MetadataOutcome(open: Opener, key: seq<byte>, input: seq<byte>)
    requires Conforms(open)
    requires |input| >= HASH_BYTE_SIZE + ENCRYPTED_WAVE_HEADER_SIZE
    requires HeaderPlain(open, key, input).Some?
    ensures MetadataPlain(open, key, input).None? ==>
      Decode(open, key, input).status == Failed(Metadata) && |Decode(open, key, input).output| == WAVE_HEADER_SIZE
  {
    HeaderFields(open, key, input);
    HeaderSlices(HeaderPlain(open, key, input).value);
  }

  /**
   * On success over a file that holds the whole container, the cursor ends
   * exactly after it, with one remainder section even when song_size is a
   * multiple of 16000, and the output is the 44-byte header (which HeaderFields
   * relates to song_size) then song_size bytes.
   */
  lemma SuccessLayout(open: Opener, key: seq<byte>, input: seq<byte>)
    requires Conforms(open)
    requires Decode(open, key, input).status == Decrypted
    requires |input| >= ContainerSize(Decode(open, key, input).metadataSize, Decode(open, key, input).songSize)
    ensures Decode(open, key, input).cursor == ContainerSize(Decode(open, key, input).metadataSize, Decode(open, key, input).songSize)
    ensures |Decode(open, key, input).output| == WAVE_HEADER_SIZE + Decode(open, key, input).songSize
  {
    MetadataOutcome(open, key, input);
    HeaderFields(open, key, input);
    DecodedTail(open, key, input);
  }

  /** The stage after the metadata, read off a decode that got past the metadata section. */
  lemma DecodedTail(open: Opener, key: seq<byte>, input: seq<byte>)
    requires Conforms(open)
    requires |input| >= 104 + Decode(open, key, input).metadataSize + 28 * (ChunkCounts(Decode(open, key, input).songSize).0 + 1) + Decode(open, key, input).songSize
    requires HeaderPlain(open, key, input).Some? && MetadataPlain(open, key, input).Some?
    requires Decode(open, key, input).status == Decrypted
    ensures Decode(open, key, input).cursor == 104 + Decode(open, key, input).metadataSize + 28 * (ChunkCounts(Decode(open, key, input).songSize).0 + 1) + Decode(open, key, input).songSize
    ensures |Decode(open, key, input).output| == WAVE_HEADER_SIZE + Decode(open, key, input).songSize
  {
    MetadataStage(open, key, input);
    HeaderFields(open, key, input);
    SuccessTail(open, key, input, 104 + Decode(open, key, input).metadataSize,
                HeaderPlain(open, key, input).value[..44],
                Decode(open, key, input).metadataSize, Decode(open, key, input).songSize,
                Take(MetadataPlain(open, key, input).value, DIGEST_SIZE));
  }

  lemma SuccessTail(open: Opener, key: seq<byte>, input: seq<byte>, pos: nat, waveHeader: seq<byte>,
                    metadataSize: nat, songSize: nat, digest: seq<byte>)
    requires Conforms(open)
    requires pos + 28 * (ChunkCounts(songSize).0 + 1) + songSize <= |input|
    requires AfterMetadata(open, key, input, pos, waveHeader, metadataSize, songSize, digest).status == Decrypted
    ensures AfterMetadata(open, key, input, pos, waveHeader, metadataSize, songSize, digest).cursor
         == pos + 28 * (ChunkCounts(songSize).0 + 1) + songSize
    ensures |AfterMetadata(open, key, input, pos, waveHeader, metadataSize, songSize, digest).output| == |waveHeader| + songSize
  {
    FullChunks(open, key, input, pos, digest, ChunkCounts(songSize).0);
    FullSection(open, key, input, Chunks(open, key, input, pos, digest, ChunkCounts(songSize).0).next, digest,
                ChunkCounts(songSize).1);
  }

  /**
   * A failure writes nothing from the failed section onward: no output when the
   * header fails, the 44-byte header when the metadata fails, the header plus
   * k - 1 full chunks when chunk k fails, and the header plus every full chunk
   * when the remainder fails.
   */
  lemma FailureOutput(open: Opener, key: seq<byte>, input: seq<byte>)
    requires Conforms(open)
    requires |input| >= ContainerSize(Decode(open, key, input).metadataSize, Decode(open, key, input).songSize)
    ensures Decode(open, key, input).status == Failed(Header) ==> Decode(open, key, input).output == []
    ensures Decode(open, key, input).status == Failed(Metadata) ==> |Decode(open, key, input).output| == WAVE_HEADER_SIZE
    ensures Decode(open, key, input).status.Failed? && Decode(open, key, input).status.section.Chunk? ==>
      |Decode(open, key, input).output| == WAVE_HEADER_SIZE + 16000 * (Decode(open, key, input).status.section.index - 1)
    ensures Decode(open, key, input).status == Failed(Remainder) ==>
      |Decode(open, key, input).output| == WAVE_HEADER_SIZE + 16000 * ChunkCounts(Decode(open, key, input).songSize).0
  {
    if HeaderPlain(open, key, input).Some? {
      if MetadataPlain(open, key, input).Some? {
        DecodedTailFailure(open, key, input);
      } else {
        MetadataOutcome(open, key, input);
      }
    }
  }

  /** The failures of a decode that got past the metadata section. */
  lemma DecodedTailFailure(open: Opener, key: seq<byte>, input: seq<byte>)
    requires Conforms(open)
    requires |input| >= ContainerSize(Decode(open, key, input).metadataSize, Decode(open, key, input).songSize)
    requires HeaderPlain(open, key, input).Some? && MetadataPlain(open, key, input).Some?
    ensures Decode(open, key, input).status.Failed? ==>
      Decode(open, key, input).status.section.Chunk? || Decode(open, key, input).status.section.Remainder?
    ensures Decode(open, key, input).status.Failed? && Decode(open, key, input).status.section.Chunk? ==>
      |Decode(open, key, input).output| == WAVE_HEADER_SIZE + 16000 * (Decode(open, key, input).status.section.index - 1)
    ensures Decode(open, key, input).status == Failed(Remainder) ==>
      |Decode(open, key, input).output| == WAVE_HEADER_SIZE + 16000 * ChunkCounts(Decode(open, key, input).songSize).0
  {
    MetadataStage(open, key, input);
    HeaderFields(open, key, input);
    TailFailure(open, key, input, 104 + Decode(open, key, input).metadataSize, HeaderPlain(open, key, input).value[..44],
                Decode(open, key, input).metadataSize, Decode(open, key, input).songSize,
                Take(MetadataPlain(open, key, input).value, DIGEST_SIZE));
  }

  /** The failures of the chunk loop and the remainder, from the cursor after the metadata. */
  lemma TailFailure(open: Opener, key: seq<byte>, input: seq<byte>, pos: nat, waveHeader: seq<byte>,
                    metadataSize: nat, songSize: nat, digest: seq<byte>)
    requires Conforms(open)
    requires pos + 28 * (ChunkCounts(songSize).0 + 1) + songSize <= |input|
    ensures AfterMetadata(open, key, input, pos, waveHeader, metadataSize, songSize, digest).status.Failed? ==>
      AfterMetadata(open, key, input, pos, waveHeader, metadataSize, songSize, digest).status.section.Chunk? ||
      AfterMetadata(open, key, input, pos, waveHeader, metadataSize, songSize, digest).status.section.Remainder?
    ensures AfterMetadata(open, key, input, pos, waveHeader, metadataSize, songSize, digest).status.Failed? &&
            AfterMetadata(open, key, input, pos, waveHeader, metadataSize, songSize, digest).status.section.Chunk? ==>
      |AfterMetadata(open, key, input, pos, waveHeader, metadataSize, songSize, digest).output|
      == |waveHeader| + 16000 * (AfterMetadata(open, key, input, pos, waveHeader, metadataSize, songSize, digest).status.section.index - 1)
    ensures AfterMetadata(open, key, input, pos, waveHeader, metadataSize, songSize, digest).status == Failed(Remainder) ==>
      |AfterMetadata(open, key, input, pos, waveHeader, metadataSize, songSize, digest).output|
      == |waveHeader| + 16000 * ChunkCounts(songSize).0
  {
    if Chunks(open, key, input, pos, digest, ChunkCounts(songSize).0).failed.Some? {
      ChunkFailureOutput(open, key, input, pos, digest, ChunkCounts(songSize).0);
    } else {
      FullChunks(open, key, input, pos, digest, ChunkCounts(songSize).0);
    }
  }

  /** A loop that failed at chunk k kept the plaintext of the k - 1 chunks before it. */
  lemma {:induction false} ChunkFailureOutput(open: Opener, key: seq<byte>, input: seq<byte>, start: nat, digest: seq<byte>, count: nat)
    requires Conforms(open)
    requires start + 16028 * count <= |input|
    requires Chunks(open, key, input, start, digest, count).failed.Some?
    ensures |Chunks(open, key, input, start, digest, count).plain|
         == 16000 * (Chunks(open, key, input, start, digest, count).failed.value - 1)
  {
    var prev := Chunks(open, key, input, start, digest, count - 1);
    if prev.failed.Some? {
      ChunkFailureOutput(open, key, input, start, digest, count - 1);
    } else {
      FullChunks(open, key, input, start, digest, count - 1);
    }
  }

  /** A failing loop failed at some iteration k, after k - 1 clean iterations whose plaintext it keeps. */
  lemma {:induction false} FirstFailure(open: Opener, key: seq<byte>, input: seq<byte>, start: nat, digest: seq<byte>, count: nat)
    requires start <= |input|
    requires Chunks(open, key, input, start, digest, count).failed.Some?
    ensures Chunks(open, key, input, start, digest, Chunks(open, key, input, start, digest, count).failed.value - 1).failed.None?
    ensures Chunks(open, key, input, start, digest, count).plain
         == Chunks(open, key, input, start, digest, Chunks(open, key, input, start, digest, count).failed.value - 1).plain
  {
    if Chunks(open, key, input, start, digest, count - 1).failed.Some? {
      FirstFailure(open, key, input, start, digest, count - 1);
    }
  }
}
