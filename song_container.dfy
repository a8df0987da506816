/**
 * The container layout that decrypt_song reads, written out as an encoder:
 * a header section sealed as one piece (nonce, ciphertext ++ tag), then the
 * metadata, the full chunks and the remainder, each stored as nonce, tag,
 * ciphertext. Decoding what this builds, with an opener that inverts the
 * sealer, gives back the wave header and the song.
 */
module SongContainer {
  import opened Bytes
  import opened Wrappers
  import opened Aead
  import opened UnprotectSong

  /** A metadata, chunk or remainder section as stored: nonce, tag, ciphertext. */
  function SealSection(seal: Sealer, key: seq<byte>, nonce: seq<byte>, aad: seq<byte>, pt: seq<byte>): seq<byte> {
    var sealed := seal(key, nonce, aad, pt);
    var ct := Take(sealed, |pt|);
    nonce + sealed[|ct|..] + ct
  }

  /** The i-th full chunk of the song (1-based), 16000 bytes. */
  function ChunkOf(payload: seq<byte>, i: nat): seq<byte>
    requires 1 <= i && 16000 * i <= |payload|
  {
    payload[16000 * (i - 1)..16000 * i]
  }

  /** True when every nonce is 12 bytes long. */
  predicate NoncesWellFormed(nonces: seq<seq<byte>>) {
    forall i :: 0 <= i < |nonces| ==> |nonces[i]| == NONCE_SIZE
  }

  /** The first count full chunk sections; chunk i uses nonce i + 1 and the digest as associated data. */
  function EncodeChunks(seal: Sealer, key: seq<byte>, nonces: seq<seq<byte>>, digest: seq<byte>, payload: seq<byte>, count: nat): seq<byte>
    requires 16000 * count <= |payload| && count + 1 < |nonces|
  {
    if count == 0 then []
    else EncodeChunks(seal, key, nonces, digest, payload, count - 1)
         + SealSection(seal, key, nonces[count + 1], digest, ChunkOf(payload, count))
  }

  /** The 48-byte header plaintext: 40 bytes of wave header, song_size, metadata_size. */
  function HeaderPlaintext(wave40: seq<byte>, metadataSize: u32, songSize: u32): seq<byte> {
    wave40 + U32Bytes(songSize) + U32Bytes(metadataSize)
  }

  /** The header section: its nonce, then the header plaintext sealed as one piece. */
  function HeaderSection(seal: Sealer, key: seq<byte>, nonce: seq<byte>, wave40: seq<byte>,
                         metadataSize: u32, songSize: u32): seq<byte> {
    nonce + seal(key, nonce, HEADER_AAD, HeaderPlaintext(wave40, metadataSize, songSize))
  }

  /** The four parts of a container in file order. */
  function Assemble(header: seq<byte>, mdSection: seq<byte>, chunks: seq<byte>, last: seq<byte>): (s: seq<byte>)
    ensures |s| == |header| + |mdSection| + |chunks| + |last|
  {
    header + mdSection + chunks + last
  }

  /**
   * A whole container for a song: nonce 0 seals the header, nonce 1 the
   * metadata, nonces 2 .. n + 1 the n full chunks and nonce n + 2 the remainder,
   * each chunk under the first 32 bytes of the metadata.
   */
  function Container(seal: Sealer, key: seq<byte>, nonces: seq<seq<byte>>, wave40: seq<byte>,
                     metadata: seq<byte>, payload: seq<byte>): seq<byte>
    requires |metadata| < U32_MODULUS && |payload| < U32_MODULUS
    requires |nonces| == ChunkCounts(|payload|).0 + 3
  {
    var n := ChunkCounts(|payload|).0;
    var digest := Take(metadata, DIGEST_SIZE);
    Assemble(HeaderSection(seal, key, nonces[0], wave40, |metadata|, |payload|),
             SealSection(seal, key, nonces[1], METADATA_AAD, metadata),
             EncodeChunks(seal, key, nonces, digest, payload, n),
             SealSection(seal, key, nonces[n + 2], digest, payload[16000 * n..]))
  }

  /** A sealed section is 28 bytes longer than its plaintext. */
  lemma SealSectionLength(open: Opener, seal: Sealer, key: seq<byte>, nonce: seq<byte>, aad: seq<byte>, pt: seq<byte>)
    requires Inverts(open, seal) && |key| == KEY_SIZE && |nonce| == NONCE_SIZE
    ensures |SealSection(seal, key, nonce, aad, pt)| == SECTION_OVERHEAD + |pt|
  {
    assert |seal(key, nonce, aad, pt)| == |pt| + TAG_SIZE;
  }

  /** Reading a sealed section back gives its nonce and the sealed bytes, which open to the plaintext. */
  lemma SectionRoundTrip(open: Opener, seal: Sealer, key: seq<byte>, nonce: seq<byte>, aad: seq<byte>, pt: seq<byte>,
                         input: seq<byte>, pos: nat)
    requires Inverts(open, seal) && |key| == KEY_SIZE && |nonce| == NONCE_SIZE
    requires pos + SECTION_OVERHEAD + |pt| <= |input|
    requires input[pos..pos + SECTION_OVERHEAD + |pt|] == SealSection(seal, key, nonce, aad, pt)
    ensures var q := SectionQuery(input, pos, |pt|);
      && q.next == pos + SECTION_OVERHEAD + |pt|
      && open(key, q.nonce, aad, q.ctTag) == Some(pt)
  {
    var sealed := seal(key, nonce, aad, pt);
    assert |sealed| == |pt| + TAG_SIZE;
    SectionFields(input, pos, nonce, sealed, Take(sealed, |pt|), |pt|);
  }

  /**
   * A slice holding nonce ++ tag ++ ciphertext, where sealed is ciphertext ++ tag,
   * is read back as the nonce and sealed.
   */
  lemma SectionFields(input: seq<byte>, pos: nat, nonce: seq<byte>, sealed: seq<byte>, ct: seq<byte>, ptLen: nat)
    requires |nonce| == NONCE_SIZE && |sealed| == ptLen + TAG_SIZE && ct == Take(sealed, ptLen)
    requires pos + SECTION_OVERHEAD + ptLen <= |input|
    requires input[pos..pos + SECTION_OVERHEAD + ptLen] == nonce + sealed[|ct|..] + ct
    ensures var q := SectionQuery(input, pos, ptLen);
      && q.next == pos + SECTION_OVERHEAD + ptLen
      && q.nonce == nonce
      && q.ctTag == sealed
  {
    var w := input[pos..pos + SECTION_OVERHEAD + ptLen];
    var tag := sealed[ptLen..];
    assert |ct| == ptLen && |tag| == TAG_SIZE;
    var head := nonce + tag;
    assert w == head + ct;
    assert w[..28] == head && w[28..] == ct;
    assert head[..12] == nonce && head[12..] == tag;
    assert input[pos..pos + 28] == w[..28];
    assert input[pos..pos + 12] == head[..12];
    assert input[pos + 12..pos + 28] == head[12..];
    assert input[pos + 28..pos + 28 + ptLen] == w[28..];
    assert ct + tag == sealed;
  }

  /** A slice holding x ++ y, where y is a section of ptLen plaintext bytes, splits into a slice per part. */
  lemma SplitSlice(input: seq<byte>, a: nat, la: nat, ptLen: nat, end: nat, x: seq<byte>, y: seq<byte>)
    requires end == a + la + SECTION_OVERHEAD + ptLen && end <= |input|
    requires |x| == la && |y| == SECTION_OVERHEAD + ptLen
    requires input[a..end] == x + y
    ensures input[a..a + la] == x
    ensures input[a + la..a + la + SECTION_OVERHEAD + ptLen] == y
  {
    assert input[a..a + la] == input[a..end][..la];
    assert input[a + la..end] == input[a..end][la..];
  }

  /** Encoded full chunks are 16028 bytes each. */
  lemma {:induction false} EncodeChunksLength(open: Opener, seal: Sealer, key: seq<byte>, nonces: seq<seq<byte>>, digest: seq<byte>,
                                              payload: seq<byte>, count: nat)
    requires Inverts(open, seal) && |key| == KEY_SIZE && NoncesWellFormed(nonces)
    requires 16000 * count <= |payload| && count + 1 < |nonces|
    ensures |EncodeChunks(seal, key, nonces, digest, payload, count)| == 16028 * count
  {
    if count > 0 {
      EncodeChunksLength(open, seal, key, nonces, digest, payload, count - 1);
      SealSectionLength(open, seal, key, nonces[count + 1], digest, ChunkOf(payload, count));
    }
  }

  /** The chunk loop over encoded chunks yields the song's first count chunks and stops after them. */
  lemma {:induction false} ChunksRoundTrip(open: Opener, seal: Sealer, key: seq<byte>, nonces: seq<seq<byte>>, digest: seq<byte>,
                                           payload: seq<byte>, input: seq<byte>, start: nat, count: nat)
    requires Inverts(open, seal) && |key| == KEY_SIZE && NoncesWellFormed(nonces)
    requires 16000 * count <= |payload| && count + 1 < |nonces|
    requires start + 16028 * count <= |input|
    requires input[start..start + 16028 * count] == EncodeChunks(seal, key, nonces, digest, payload, count)
    ensures Chunks(open, key, input, start, digest, count) == ChunkRun(payload[..16000 * count], start + 16028 * count, None)
  {
    if count > 0 {
      ChunksSlices(open, seal, key, nonces, digest, payload, input, start, count);
      ChunksRoundTrip(open, seal, key, nonces, digest, payload, input, start, count - 1);
      ChunkStepRoundTrip(open, seal, key, nonces, digest, payload, input, start, count);
    }
  }

  /** The slice holding count chunk sections is the slice holding the first count - 1, then the last one. */
  lemma ChunksSlices(open: Opener, seal: Sealer, key: seq<byte>, nonces: seq<seq<byte>>, digest: seq<byte>,
                     payload: seq<byte>, input: seq<byte>, start: nat, count: nat)
    requires Inverts(open, seal) && |key| == KEY_SIZE && NoncesWellFormed(nonces)
    requires 0 < count && 16000 * count <= |payload| && count + 1 < |nonces|
    requires start + 16028 * count <= |input|
    requires input[start..start + 16028 * count] == EncodeChunks(seal, key, nonces, digest, payload, count)
    ensures input[start..start + 16028 * (count - 1)] == EncodeChunks(seal, key, nonces, digest, payload, count - 1)
    ensures input[start + 16028 * (count - 1)..start + 16028 * (count - 1) + SECTION_OVERHEAD + |ChunkOf(payload, count)|]
         == SealSection(seal, key, nonces[count + 1], digest, ChunkOf(payload, count))
  {
    var before := EncodeChunks(seal, key, nonces, digest, payload, count - 1);
    var chunk := ChunkOf(payload, count);
    var section := SealSection(seal, key, nonces[count + 1], digest, chunk);
    EncodeChunksLength(open, seal, key, nonces, digest, payload, count - 1);
    SealSectionLength(open, seal, key, nonces[count + 1], digest, chunk);
    SplitSlice(input, start, 16028 * (count - 1), |chunk|, start + 16028 * count, before, section);
  }

  /** The last chunk section opens, so the loop over count chunks extends the loop over count - 1 by one chunk. */
  lemma ChunkStepRoundTrip(open: Opener, seal: Sealer, key: seq<byte>, nonces: seq<seq<byte>>, digest: seq<byte>,
                           payload: seq<byte>, input: seq<byte>, start: nat, count: nat)
    requires Inverts(open, seal) && |key| == KEY_SIZE && NoncesWellFormed(nonces)
    requires 0 < count && 16000 * count <= |payload| && count + 1 < |nonces|
    requires start + 16028 * count <= |input|
    requires Chunks(open, key, input, start, digest, count - 1)
          == ChunkRun(payload[..16000 * (count - 1)], start + 16028 * (count - 1), None)
    requires input[start + 16028 * (count - 1)..start + 16028 * (count - 1) + SECTION_OVERHEAD + |ChunkOf(payload, count)|]
          == SealSection(seal, key, nonces[count + 1], digest, ChunkOf(payload, count))
    ensures Chunks(open, key, input, start, digest, count) == ChunkRun(payload[..16000 * count], start + 16028 * count, None)
  {
    SectionRoundTrip(open, seal, key, nonces[count + 1], digest, ChunkOf(payload, count), input, start + 16028 * (count - 1));
    ChunkStepOpens(open, key, input, digest, payload[..16000 * (count - 1)], start + 16028 * (count - 1), ChunkOf(payload, count), count);
    PrefixExtend(payload, 16000 * (count - 1), 16000 * count);
  }

  /** Extending a prefix by the next slice gives the longer prefix. */
  lemma PrefixExtend(s: seq<byte>, a: nat, b: nat)
    requires a <= b <= |s|
    ensures s[..a] + s[a..b] == s[..b]
  {
  }

  /** One iteration of the chunk loop over a section that opens appends its plaintext. */
  lemma ChunkStepOpens(open: Opener, key: seq<byte>, input: seq<byte>, digest: seq<byte>, plain: seq<byte>, pos: nat,
                       chunk: seq<byte>, i: nat)
    requires pos + SECTION_OVERHEAD + CHUNK_SIZE <= |input| && |chunk| == CHUNK_SIZE
    requires var q := SectionQuery(input, pos, CHUNK_SIZE);
      q.next == pos + SECTION_OVERHEAD + CHUNK_SIZE && open(key, q.nonce, digest, q.ctTag) == Some(chunk)
    ensures ChunkStep(open, key, input, digest, ChunkRun(plain, pos, None), i)
         == ChunkRun(plain + chunk, pos + SECTION_OVERHEAD + CHUNK_SIZE, None)
  {
  }

  /** The decoder's two size fields read back the sizes the header plaintext was built with. */
  lemma HeaderPlaintextFields(wave40: seq<byte>, metadataSize: u32, songSize: u32)
    requires |wave40| == 40
    ensures var p := HeaderPlaintext(wave40, metadataSize, songSize);
      && |p| == WAVE_HEADER_SIZE + METADATA_SIZE_ALLOCATION
      && LittleEndian32(Last(p, METADATA_SIZE_ALLOCATION)) == metadataSize
      && Take(p, WAVE_HEADER_SIZE) == wave40 + U32Bytes(songSize)
      && LittleEndian32(Last(Take(p, WAVE_HEADER_SIZE), 4)) == songSize
  {
    var p := HeaderPlaintext(wave40, metadataSize, songSize);
    assert Last(p, METADATA_SIZE_ALLOCATION) == U32Bytes(metadataSize);
    assert Take(p, WAVE_HEADER_SIZE) == wave40 + U32Bytes(songSize);
    assert Last(wave40 + U32Bytes(songSize), 4) == U32Bytes(songSize);
    U32BytesRoundTrip(metadataSize);
    U32BytesRoundTrip(songSize);
  }

  /** input is h, m, c and l one after another. */
  predicate At(input: seq<byte>, h: seq<byte>, m: seq<byte>, c: seq<byte>, l: seq<byte>) {
    && |input| == |h| + |m| + |c| + |l|
    && input[..|h|] == h
    && input[|h|..|h| + |m|] == m
    && input[|h| + |m|..|h| + |m| + |c|] == c
    && input[|h| + |m| + |c|..] == l
  }

  /** The four parts of a concatenation can be sliced back out of it. */
  lemma AssembleAt(h: seq<byte>, m: seq<byte>, c: seq<byte>, l: seq<byte>)
    ensures At(Assemble(h, m, c, l), h, m, c, l)
  {
    var s := Assemble(h, m, c, l);
    assert s[..|h|] == h;
    assert s[|h|..|h| + |m|] == m;
    assert s[|h| + |m|..|h| + |m| + |c|] == c;
    assert s[|h| + |m| + |c|..] == l;
  }

  /** h, m, c and l sit at the offsets a container with these lengths gives them. */
  predicate SlicesAt(input: seq<byte>, h: seq<byte>, m: seq<byte>, c: seq<byte>, l: seq<byte>, mdLen: nat, n: nat, restLen: nat) {
    && 76 + SECTION_OVERHEAD + mdLen <= |input|
    && input[..76] == h
    && input[76..76 + SECTION_OVERHEAD + mdLen] == m
    && TailAt(input, 76 + SECTION_OVERHEAD + mdLen, n, c, l, restLen)
  }

  /** From pos, n chunk sections c, then the remainder section l, which ends the input. */
  predicate TailAt(input: seq<byte>, pos: nat, n: nat, c: seq<byte>, l: seq<byte>, restLen: nat) {
    && |input| == pos + 16028 * n + SECTION_OVERHEAD + restLen
    && input[pos..pos + 16028 * n] == c
    && input[pos + 16028 * n..pos + 16028 * n + SECTION_OVERHEAD + restLen] == l
  }

  /** With the lengths of a container's parts known, each part sits at a fixed offset. */
  lemma AtOffsets(input: seq<byte>, h: seq<byte>, m: seq<byte>, c: seq<byte>, l: seq<byte>, mdLen: nat, n: nat, restLen: nat)
    requires At(input, h, m, c, l)
    requires |h| == 76 && |m| == SECTION_OVERHEAD + mdLen && |c| == 16028 * n && |l| == SECTION_OVERHEAD + restLen
    ensures SlicesAt(input, h, m, c, l, mdLen, n, restLen)
  {
  }

  /** A container is its four parts laid end to end. */
  lemma ContainerLayout(seal: Sealer, key: seq<byte>, nonces: seq<seq<byte>>, wave40: seq<byte>,
                        metadata: seq<byte>, payload: seq<byte>)
    requires |metadata| < U32_MODULUS && |payload| < U32_MODULUS
    requires |nonces| == ChunkCounts(|payload|).0 + 3
    ensures LaidOut(seal, key, nonces, wave40, metadata, payload, Container(seal, key, nonces, wave40, metadata, payload))
  {
    AssembleAt(HeaderSection(seal, key, nonces[0], wave40, |metadata|, |payload|),
               SealSection(seal, key, nonces[1], METADATA_AAD, metadata),
               EncodeChunks(seal, key, nonces, Take(metadata, DIGEST_SIZE), payload, ChunkCounts(|payload|).0),
               SealSection(seal, key, nonces[ChunkCounts(|payload|).0 + 2], Take(metadata, DIGEST_SIZE),
                           payload[16000 * ChunkCounts(|payload|).0..]));
  }

  /** The header section is 76 bytes: the nonce and 48 bytes of plaintext sealed with their tag. */
  lemma HeaderSectionLength(open: Opener, seal: Sealer, key: seq<byte>, nonce: seq<byte>, wave40: seq<byte>,
                            metadataSize: u32, songSize: u32)
    requires Inverts(open, seal) && |key| == KEY_SIZE && |nonce| == NONCE_SIZE && |wave40| == 40
    ensures |HeaderSection(seal, key, nonce, wave40, metadataSize, songSize)| == HASH_BYTE_SIZE + ENCRYPTED_WAVE_HEADER_SIZE
  {
    var p := HeaderPlaintext(wave40, metadataSize, songSize);
    assert |seal(key, nonce, HEADER_AAD, p)| == |p| + TAG_SIZE;
  }

  /** input holds the sections of a container for this song, in order and nothing more. */
  ghost predicate LaidOut(seal: Sealer, key: seq<byte>, nonces: seq<seq<byte>>, wave40: seq<byte>,
                          metadata: seq<byte>, payload: seq<byte>, input: seq<byte>)
    requires |metadata| < U32_MODULUS && |payload| < U32_MODULUS
    requires |nonces| == ChunkCounts(|payload|).0 + 3
  {
    var n := ChunkCounts(|payload|).0;
    var digest := Take(metadata, DIGEST_SIZE);
    At(input, HeaderSection(seal, key, nonces[0], wave40, |metadata|, |payload|),
       SealSection(seal, key, nonces[1], METADATA_AAD, metadata),
       EncodeChunks(seal, key, nonces, digest, payload, n),
       SealSection(seal, key, nonces[n + 2], digest, payload[16000 * n..]))
  }

  /** The sections of a container, each at the offset the decoder reads it from. */
  ghost predicate SectionsAt(seal: Sealer, key: seq<byte>, nonces: seq<seq<byte>>, wave40: seq<byte>,
                             metadata: seq<byte>, payload: seq<byte>, input: seq<byte>)
    requires |metadata| < U32_MODULUS && |payload| < U32_MODULUS
    requires |nonces| == ChunkCounts(|payload|).0 + 3
  {
    var n := ChunkCounts(|payload|).0;
    var digest := Take(metadata, DIGEST_SIZE);
    SlicesAt(input, HeaderSection(seal, key, nonces[0], wave40, |metadata|, |payload|),
             SealSection(seal, key, nonces[1], METADATA_AAD, metadata),
             EncodeChunks(seal, key, nonces, digest, payload, n),
             SealSection(seal, key, nonces[n + 2], digest, payload[16000 * n..]),
             |metadata|, n, |payload[16000 * n..]|)
  }

  /** In a laid-out container each section sits where the decoder looks for it. */
  lemma LaidOutSections(open: Opener, seal: Sealer, key: seq<byte>, nonces: seq<seq<byte>>, wave40: seq<byte>,
                        metadata: seq<byte>, payload: seq<byte>, input: seq<byte>)
    requires Inverts(open, seal) && |key| == KEY_SIZE && NoncesWellFormed(nonces)
    requires |wave40| == 40 && |metadata| < U32_MODULUS && |payload| < U32_MODULUS
    requires |nonces| == ChunkCounts(|payload|).0 + 3
    requires LaidOut(seal, key, nonces, wave40, metadata, payload, input)
    ensures SectionsAt(seal, key, nonces, wave40, metadata, payload, input)
  {
    HeaderSectionLength(open, seal, key, nonces[0], wave40, |metadata|, |payload|);
    SealSectionLength(open, seal, key, nonces[1], METADATA_AAD, metadata);
    EncodeChunksLength(open, seal, key, nonces, Take(metadata, DIGEST_SIZE), payload, ChunkCounts(|payload|).0);
    SealSectionLength(open, seal, key, nonces[ChunkCounts(|payload|).0 + 2], Take(metadata, DIGEST_SIZE),
                      payload[16000 * ChunkCounts(|payload|).0..]);
    AtOffsets(input, HeaderSection(seal, key, nonces[0], wave40, |metadata|, |payload|),
              SealSection(seal, key, nonces[1], METADATA_AAD, metadata),
              EncodeChunks(seal, key, nonces, Take(metadata, DIGEST_SIZE), payload, ChunkCounts(|payload|).0),
              SealSection(seal, key, nonces[ChunkCounts(|payload|).0 + 2], Take(metadata, DIGEST_SIZE),
                          payload[16000 * ChunkCounts(|payload|).0..]),
              |metadata|, ChunkCounts(|payload|).0, |payload[16000 * ChunkCounts(|payload|).0..]|);
  }

  /**
   * A container decodes back to its song: decrypt_song reports success, writes
   * the 44-byte wave header (the 40 bytes given, then song_size) followed by
   * the song, reads the container to its end and reports both sizes.
   */
  lemma ContainerRoundTrip(open: Opener, seal: Sealer, key: seq<byte>, nonces: seq<seq<byte>>, wave40: seq<byte>,
                           metadata: seq<byte>, payload: seq<byte>)
    requires Inverts(open, seal) && |key| == KEY_SIZE && NoncesWellFormed(nonces)
    requires |wave40| == 40 && |metadata| < U32_MODULUS && |payload| < U32_MODULUS
    requires |nonces| == ChunkCounts(|payload|).0 + 3
    ensures var input := Container(seal, key, nonces, wave40, metadata, payload);
      Decode(open, key, input) == Trace(Decrypted, wave40 + U32Bytes(|payload|) + payload, |input|, |metadata|, |payload|)
  {
    var input := Container(seal, key, nonces, wave40, metadata, payload);
    ContainerLayout(seal, key, nonces, wave40, metadata, payload);
    LaidOutSections(open, seal, key, nonces, wave40, metadata, payload, input);
    DecodeSectionsAt(open, seal, key, nonces, wave40, metadata, payload, input);
  }

  /** Decoding any input whose sections sit where a container puts them. */
  lemma DecodeSectionsAt(open: Opener, seal: Sealer, key: seq<byte>, nonces: seq<seq<byte>>, wave40: seq<byte>,
                      metadata: seq<byte>, payload: seq<byte>, input: seq<byte>)
    requires Inverts(open, seal) && |key| == KEY_SIZE && NoncesWellFormed(nonces)
    requires |wave40| == 40 && |metadata| < U32_MODULUS && |payload| < U32_MODULUS
    requires |nonces| == ChunkCounts(|payload|).0 + 3
    requires SectionsAt(seal, key, nonces, wave40, metadata, payload, input)
    ensures Decode(open, key, input) == Trace(Decrypted, wave40 + U32Bytes(|payload|) + payload, |input|, |metadata|, |payload|)
  {
    var n := ChunkCounts(|payload|).0;
    var digest := Take(metadata, DIGEST_SIZE);
    var headerPlain := HeaderPlaintext(wave40, |metadata|, |payload|);
    HeaderPlaintextFields(wave40, |metadata|, |payload|);

    HeaderRoundTrip(open, seal, key, nonces[0], headerPlain, input);
    assert Decode(open, key, input) == AfterHeader(open, key, input, 76, headerPlain);

    var pos := 76 + SECTION_OVERHEAD + |metadata|;
    SectionRoundTrip(open, seal, key, nonces[1], METADATA_AAD, metadata, input, 76);
    var waveHeader := wave40 + U32Bytes(|payload|);
    assert AfterHeader(open, key, input, 76, headerPlain)
        == AfterMetadata(open, key, input, pos, waveHeader, |metadata|, |payload|, digest);

    ContainerTail(open, seal, key, nonces, digest, payload, input, pos, waveHeader, |metadata|);
  }

  /** Reading a sealed header section back gives the nonce and the sealed bytes, which open to the header plaintext. */
  lemma HeaderRoundTrip(open: Opener, seal: Sealer, key: seq<byte>, nonce: seq<byte>, headerPlain: seq<byte>, input: seq<byte>)
    requires Inverts(open, seal) && |key| == KEY_SIZE && |nonce| == NONCE_SIZE
    requires |headerPlain| == WAVE_HEADER_SIZE + METADATA_SIZE_ALLOCATION
    requires |input| >= HASH_BYTE_SIZE + ENCRYPTED_WAVE_HEADER_SIZE
    requires input[..HASH_BYTE_SIZE + ENCRYPTED_WAVE_HEADER_SIZE] == nonce + seal(key, nonce, HEADER_AAD, headerPlain)
    ensures var hq := HeaderQuery(input);
      && hq.next == HASH_BYTE_SIZE + ENCRYPTED_WAVE_HEADER_SIZE
      && open(key, hq.nonce, HEADER_AAD, hq.ctTag) == Some(headerPlain)
  {
    var sealed := seal(key, nonce, HEADER_AAD, headerPlain);
    assert |sealed| == ENCRYPTED_WAVE_HEADER_SIZE;
    var hq := HeaderQuery(input);
    assert hq.nonce == input[..76][..12] == nonce;
    assert hq.ctTag == input[..76][12..] == sealed;
  }

  /** The chunk loop and the remainder of a laid-out container, from the cursor after its metadata. */
  lemma ContainerTail(open: Opener, seal: Sealer, key: seq<byte>, nonces: seq<seq<byte>>, digest: seq<byte>,
                      payload: seq<byte>, input: seq<byte>, pos: nat, waveHeader: seq<byte>, metadataSize: nat)
    requires Inverts(open, seal) && |key| == KEY_SIZE && NoncesWellFormed(nonces)
    requires |nonces| == ChunkCounts(|payload|).0 + 3
    requires TailAt(input, pos, ChunkCounts(|payload|).0, EncodeChunks(seal, key, nonces, digest, payload, ChunkCounts(|payload|).0),
                    SealSection(seal, key, nonces[ChunkCounts(|payload|).0 + 2], digest, payload[16000 * ChunkCounts(|payload|).0..]),
                    |payload[16000 * ChunkCounts(|payload|).0..]|)
    ensures AfterMetadata(open, key, input, pos, waveHeader, metadataSize, |payload|, digest)
         == Trace(Decrypted, waveHeader + payload, |input|, metadataSize, |payload|)
  {
    var n := ChunkCounts(|payload|).0;
    var rest := payload[16000 * n..];
    RemainderOpens(open, seal, key, nonces, digest, payload, input, pos);
    ChunksAt(open, seal, key, nonces, digest, payload, input, pos);
    TailSucceeds(open, key, input, pos, waveHeader, metadataSize, |payload|, digest, payload[..16000 * n], pos + 16028 * n, rest, payload);
  }

  /** The remainder section of a laid-out container opens to the payload after its full chunks and ends the input. */
  lemma RemainderOpens(open: Opener, seal: Sealer, key: seq<byte>, nonces: seq<seq<byte>>, digest: seq<byte>,
                       payload: seq<byte>, input: seq<byte>, pos: nat)
    requires Inverts(open, seal) && |key| == KEY_SIZE && NoncesWellFormed(nonces)
    requires |nonces| == ChunkCounts(|payload|).0 + 3
    requires TailAt(input, pos, ChunkCounts(|payload|).0, EncodeChunks(seal, key, nonces, digest, payload, ChunkCounts(|payload|).0),
                    SealSection(seal, key, nonces[ChunkCounts(|payload|).0 + 2], digest, payload[16000 * ChunkCounts(|payload|).0..]),
                    |payload[16000 * ChunkCounts(|payload|).0..]|)
    ensures var rq := SectionQuery(input, pos + 16028 * ChunkCounts(|payload|).0, ChunkCounts(|payload|).1);
      && rq.next == |input|
      && open(key, rq.nonce, digest, rq.ctTag) == Some(payload[16000 * ChunkCounts(|payload|).0..])
  {
    var n := ChunkCounts(|payload|).0;
    var rest := payload[16000 * n..];
    var next := pos + 16028 * n;
    assert |nonces[n + 2]| == NONCE_SIZE;
    assert next + SECTION_OVERHEAD + |rest| <= |input|;
    assert input[next..next + SECTION_OVERHEAD + |rest|] == SealSection(seal, key, nonces[n + 2], digest, rest);
    SectionRoundTrip(open, seal, key, nonces[n + 2], digest, rest, input, next);
  }

  /** The full chunks of a laid-out container open to the payload's first 16000 * n bytes. */
  lemma ChunksAt(open: Opener, seal: Sealer, key: seq<byte>, nonces: seq<seq<byte>>, digest: seq<byte>,
                 payload: seq<byte>, input: seq<byte>, pos: nat)
    requires Inverts(open, seal) && |key| == KEY_SIZE && NoncesWellFormed(nonces)
    requires |nonces| == ChunkCounts(|payload|).0 + 3
    requires TailAt(input, pos, ChunkCounts(|payload|).0, EncodeChunks(seal, key, nonces, digest, payload, ChunkCounts(|payload|).0),
                    SealSection(seal, key, nonces[ChunkCounts(|payload|).0 + 2], digest, payload[16000 * ChunkCounts(|payload|).0..]),
                    |payload[16000 * ChunkCounts(|payload|).0..]|)
    ensures Chunks(open, key, input, pos, digest, ChunkCounts(|payload|).0)
         == ChunkRun(payload[..16000 * ChunkCounts(|payload|).0], pos + 16028 * ChunkCounts(|payload|).0, None)
    ensures payload[..16000 * ChunkCounts(|payload|).0] + payload[16000 * ChunkCounts(|payload|).0..] == payload
  {
    var n := ChunkCounts(|payload|).0;
    ChunksRoundTrip(open, seal, key, nonces, digest, payload, input, pos, n);
    assert payload[..16000 * n] + payload[16000 * n..] == payload;
  }

  /** The decode after the metadata when every chunk and the remainder open. */
  lemma TailSucceeds(open: Opener, key: seq<byte>, input: seq<byte>, pos: nat, waveHeader: seq<byte>,
                     metadataSize: nat, songSize: nat, digest: seq<byte>, plain: seq<byte>, next: nat, last: seq<byte>,
                     song: seq<byte>)
    requires pos <= next <= |input|
    requires Chunks(open, key, input, pos, digest, ChunkCounts(songSize).0) == ChunkRun(plain, next, None)
    requires var rq := SectionQuery(input, next, ChunkCounts(songSize).1);
      open(key, rq.nonce, digest, rq.ctTag) == Some(last)
    requires plain + last == song
    ensures AfterMetadata(open, key, input, pos, waveHeader, metadataSize, songSize, digest)
         == Trace(Decrypted, waveHeader + song, SectionQuery(input, next, ChunkCounts(songSize).1).next,
                  metadataSize, songSize)
  {
    assert waveHeader + plain + last == waveHeader + song;
  }
}
