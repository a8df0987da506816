/**
 * The offline decoder `decrypt_song` of tools/unprotectSong.py.
 *
 * A container is read front to back with one file cursor:
 *   nonce(12) ciphertext++tag(64)                  header section
 *   nonce(12) tag(16) ciphertext(metadata_size)    metadata section
 *   nonce(12) tag(16) ciphertext(16000)            song_size div 16000 times
 *   nonce(12) tag(16) ciphertext(song_size mod 16000)   the remainder, always present
 * Every section is opened with the IETF ChaCha20-Poly1305 AEAD. The sizes of the
 * later sections come from the decrypted header, and the chunk associated data
 * is the first 32 bytes of the decrypted metadata.
 */
module UnprotectSong {
  import opened Bytes
  import opened Wrappers
  import opened Aead

  // Configuration variables of decrypt_song.
  const MAC_SIZE := 16
  const HASH_BYTE_SIZE := 12          // the nonce length
  const WAVE_HEADER_SIZE := 44
  const METADATA_SIZE_ALLOCATION := 4
  const ENCRYPTED_WAVE_HEADER_SIZE := WAVE_HEADER_SIZE + METADATA_SIZE_ALLOCATION + MAC_SIZE
  const CHUNK_SIZE := 16000
  const DIGEST_SIZE := 32             // metadata[:32], the sha256 sum used as chunk AAD

  /** Nonce plus tag: what every section costs on disk besides its ciphertext. */
  const SECTION_OVERHEAD := HASH_BYTE_SIZE + MAC_SIZE

  /** b"wave_header\0", the header AAD; the firmware's `aad[12] = "wave_header"` holds the same 12 bytes. */
  const HEADER_AAD: seq<byte> := [119, 97, 118, 101, 95, 104, 101, 97, 100, 101, 114, 0]
  /** b"meta_data\0", the metadata AAD; the firmware's `aad[10] = "meta_data"` holds the same 10 bytes. */
  const METADATA_AAD: seq<byte> := [109, 101, 116, 97, 95, 100, 97, 116, 97, 0]

  datatype Section = Header | Metadata | Chunk(index: nat) | Remainder

  /** How a decode ends: completely, or at the section whose decryption raised. */
  datatype Status = Decrypted | Failed(section: Section)

  /**
   * Everything a decode determines: its status, the bytes written to the output
   * file, the final cursor, and the two sizes taken from the header plaintext
   * (zero when the header itself did not open).
   */
  datatype Trace = Trace(status: Status, output: seq<byte>, cursor: nat, metadataSize: nat, songSize: nat)

  /** `read(n)` on a file positioned at pos: at most n bytes, fewer at the end of the file. */
  function Read(input: seq<byte>, pos: nat, n: nat): (r: seq<byte>)
    requires pos <= |input|
    ensures |r| == Min(n, |input| - pos)
  {
    if pos + n <= |input| then input[pos..pos + n] else input[pos..]
  }

  /** The number of full chunks and the size of the remainder chunk (Python's floor(a / b) and a % b). */
  function ChunkCounts(songSize: nat): (c: (nat, nat))
    ensures c.0 * 16000 + c.1 == songSize
    ensures c.1 < CHUNK_SIZE
  {
    (songSize / 16000, songSize % 16000)
  }

  /** A decryption request: the nonce and the combined ciphertext ++ tag handed to the primitive. */
  datatype Query = Query(nonce: seq<byte>, ctTag: seq<byte>, next: nat)

  /** The header section's request: nonce, then 64 bytes passed on unchanged (the tag is already last). */
  function HeaderQuery(input: seq<byte>): (q: Query)
    ensures q.next == Min(HASH_BYTE_SIZE + ENCRYPTED_WAVE_HEADER_SIZE, |input|)
  {
    var nonceEnd := Min(HASH_BYTE_SIZE, |input|);
    var end := Min(HASH_BYTE_SIZE + ENCRYPTED_WAVE_HEADER_SIZE, |input|);
    Query(input[..nonceEnd], input[nonceEnd..end], end)
  }

  /**
   * A metadata, chunk or remainder section's request: on disk nonce, tag,
   * ciphertext; the primitive receives ciphertext ++ tag.
   */
  function SectionQuery(input: seq<byte>, pos: nat, ctLen: nat): (q: Query)
    requires pos <= |input|
    ensures pos <= q.next <= |input|
  {
    if pos + SECTION_OVERHEAD + ctLen <= |input| then
      Query(input[pos..pos + HASH_BYTE_SIZE],
            input[pos + SECTION_OVERHEAD..pos + SECTION_OVERHEAD + ctLen] + input[pos + HASH_BYTE_SIZE..pos + SECTION_OVERHEAD],
            pos + SECTION_OVERHEAD + ctLen)
    else
      var nonceEnd := Min(pos + HASH_BYTE_SIZE, |input|);
      var tagEnd := Min(pos + SECTION_OVERHEAD, |input|);
      Query(input[pos..nonceEnd], input[tagEnd..] + input[nonceEnd..tagEnd], |input|)
  }

  /** The state after the first `count` full chunks: plaintext so far, cursor, failing chunk if any. */
  datatype ChunkRun = ChunkRun(plain: seq<byte>, next: nat, failed: Option<nat>)

  /** One iteration of the chunk loop: nothing once a chunk has failed, else read, open and append. */
  function ChunkStep(open: Opener, key: seq<byte>, input: seq<byte>, digest: seq<byte>, r: ChunkRun, i: nat): (s: ChunkRun)
    requires r.next <= |input|
    ensures r.next <= s.next <= |input|
    ensures r.plain <= s.plain
    ensures r.failed.Some? ==> s == r
    ensures s.failed.Some? ==> s.plain == r.plain
    ensures r.failed.None? && s.failed.Some? ==> s.failed.value == i
  {
    if r.failed.Some? then r
    else
      var q := SectionQuery(input, r.next, CHUNK_SIZE);
      match open(key, q.nonce, digest, q.ctTag)
      case None => ChunkRun(r.plain, q.next, Some(i))
      case Some(p) => ChunkRun(r.plain + p, q.next, None)
  }

  /** The loop `for i in range(1, count + 1)` over full chunks, all under the same digest. */
  function Chunks(open: Opener, key: seq<byte>, input: seq<byte>, start: nat, digest: seq<byte>, count: nat): (r: ChunkRun)
    requires start <= |input|
    ensures start <= r.next <= |input|
    ensures r.failed.Some? ==> 1 <= r.failed.value <= count
  {
    if count == 0 then ChunkRun([], start, None)
    else ChunkStep(open, key, input, digest, Chunks(open, key, input, start, digest, count - 1), count)
  }

  /** The whole decode, as a function of the primitive, the key and the container bytes. */
  function Decode(open: Opener, key: seq<byte>, input: seq<byte>): (t: Trace)
    ensures t.cursor <= |input|
    ensures t.status == Failed(Header) ==> t.output == [] && t.cursor == Min(76, |input|)
  {
    var hq := HeaderQuery(input);
    match open(key, hq.nonce, HEADER_AAD, hq.ctTag)
    case None => Trace(Failed(Header), [], hq.next, 0, 0)
    case Some(headerPlain) => AfterHeader(open, key, input, hq.next, headerPlain)
  }

  /** The decode once the header section has opened: sizes, then the metadata section. */
  function AfterHeader(open: Opener, key: seq<byte>, input: seq<byte>, pos: nat, headerPlain: seq<byte>): (t: Trace)
    requires pos <= |input|
    ensures pos <= t.cursor <= |input|
    ensures t.status != Failed(Header)
    ensures t.metadataSize == LittleEndian32(Last(headerPlain, METADATA_SIZE_ALLOCATION))
    ensures t.songSize == LittleEndian32(Last(Take(headerPlain, WAVE_HEADER_SIZE), 4))
    ensures Take(headerPlain, WAVE_HEADER_SIZE) <= t.output
  {
    var metadataSize := LittleEndian32(Last(headerPlain, METADATA_SIZE_ALLOCATION));
    var waveHeader := Take(headerPlain, WAVE_HEADER_SIZE);
    var songSize := LittleEndian32(Last(waveHeader, 4));
    var mq := SectionQuery(input, pos, metadataSize);
    match open(key, mq.nonce, METADATA_AAD, mq.ctTag)
    case None => Trace(Failed(Metadata), waveHeader, mq.next, metadataSize, songSize)
    case Some(metadata) =>
      AfterMetadata(open, key, input, mq.next, waveHeader, metadataSize, songSize, Take(metadata, DIGEST_SIZE))
  }

  /** The decode once the metadata section has opened: the full chunks, then the remainder. */
  function AfterMetadata(open: Opener, key: seq<byte>, input: seq<byte>, pos: nat, waveHeader: seq<byte>,
                         metadataSize: nat, songSize: nat, digest: seq<byte>): (t: Trace)
    requires pos <= |input|
    ensures pos <= t.cursor <= |input|
    ensures t.status != Failed(Header) && t.status != Failed(Metadata)
    ensures t.metadataSize == metadataSize && t.songSize == songSize
    ensures waveHeader <= t.output
  {
    var (count, remainder) := ChunkCounts(songSize);
    var run := Chunks(open, key, input, pos, digest, count);
    if run.failed.Some? then
      Trace(Failed(Chunk(run.failed.value)), waveHeader + run.plain, run.next, metadataSize, songSize)
    else
      var rq := SectionQuery(input, run.next, remainder);
      match open(key, rq.nonce, digest, rq.ctTag)
      case None => Trace(Failed(Remainder), waveHeader + run.plain, rq.next, metadataSize, songSize)
      case Some(last) => Trace(Decrypted, waveHeader + run.plain + last, rq.next, metadataSize, songSize)
  }

  /** Once a chunk has failed, later iterations change nothing (the exception ends the loop). */
  lemma {:induction false} ChunksFailureSticks(open: Opener, key: seq<byte>, input: seq<byte>, start: nat, digest: seq<byte>, m: nat, n: nat)
    requires start <= |input| && m <= n
    requires Chunks(open, key, input, start, digest, m).failed.Some?
    ensures Chunks(open, key, input, start, digest, n) == Chunks(open, key, input, start, digest, m)
  {
    if m < n { ChunksFailureSticks(open, key, input, start, digest, m, n - 1); }
  }

  /** The three reads of a metadata, chunk or remainder section, and the re-concatenation as ciphertext ++ tag. */
  method ReadSection(input: seq<byte>, pos: nat, ctLen: nat) returns (nonce: seq<byte>, combined: seq<byte>, next: nat)
    requires pos <= |input|
    ensures Query(nonce, combined, next) == SectionQuery(input, pos, ctLen)
  {
    next := pos;
    nonce := Read(input, next, HASH_BYTE_SIZE);
    next := next + |nonce|;
    var tag := Read(input, next, MAC_SIZE);
    next := next + |tag|;
    var ciphertext := Read(input, next, ctLen);
    next := next + |ciphertext|;
    combined := ciphertext + tag;
  }

  /**
   * The chunk loop of decrypt_song: `count` sections of CHUNK_SIZE bytes, each
   * opened under the digest and appended to the output, until one fails.
   */
  method DecryptChunks(open: Opener, key: seq<byte>, input: seq<byte>, start: nat, digest: seq<byte>, count: nat)
    returns (plain: seq<byte>, next: nat, failed: Option<nat>)
    requires start <= |input|
    ensures ChunkRun(plain, next, failed) == Chunks(open, key, input, start, digest, count)
  {
    plain, next, failed := [], start, None;
    for i := 1 to count + 1
      invariant start <= next <= |input|
      invariant Chunks(open, key, input, start, digest, i - 1) == ChunkRun(plain, next, None)
    {
      var nonce, encryptedChunk;
      nonce, encryptedChunk, next := ReadSection(input, next, CHUNK_SIZE);
      var songChunk := open(key, nonce, digest, encryptedChunk);
      if songChunk.None? {
        failed := Some(i);
        ChunksFailureSticks(open, key, input, start, digest, i, count);
        return;
      }
      plain := plain + songChunk.value;
    }
  }

  /**
   * decrypt_song itself: a cursor advanced by successive reads, an output file
   * appended to by writes, and a loop that reassigns nonce and chunk each time.
   * It returns what the Python code leaves behind: how it ended and what it wrote.
   */
  method DecryptSong(open: Opener, key: seq<byte>, input: seq<byte>)
    returns (status: Status, output: seq<byte>, ghost cursor: nat)
    ensures status == Decode(open, key, input).status
    ensures output == Decode(open, key, input).output
    ensures cursor == Decode(open, key, input).cursor
  {
    var pos := 0;
    var nonce := Read(input, pos, HASH_BYTE_SIZE);
    pos := pos + |nonce|;
    var encryptedWaveHeader := Read(input, pos, ENCRYPTED_WAVE_HEADER_SIZE);
    pos := pos + |encryptedWaveHeader|;
    assert Query(nonce, encryptedWaveHeader, pos) == HeaderQuery(input);
    var plain := open(key, nonce, HEADER_AAD, encryptedWaveHeader);
    if plain.None? {
      status, output, cursor := Failed(Header), [], pos;
      return;
    }
    status, output, cursor := DecryptBody(open, key, input, pos, plain.value);
  }

  /** The rest of decrypt_song once the header has opened: the sizes, then the metadata section. */
  method DecryptBody(open: Opener, key: seq<byte>, input: seq<byte>, pos: nat, headerPlain: seq<byte>)
    returns (status: Status, output: seq<byte>, ghost cursor: nat)
    requires pos <= |input|
    ensures status == AfterHeader(open, key, input, pos, headerPlain).status
    ensures output == AfterHeader(open, key, input, pos, headerPlain).output
    ensures cursor == AfterHeader(open, key, input, pos, headerPlain).cursor
  {
    var metadataSize := LittleEndian32(Last(headerPlain, METADATA_SIZE_ALLOCATION));
    var wavHeader := Take(headerPlain, WAVE_HEADER_SIZE);
    var songSize := LittleEndian32(Last(wavHeader, 4));
    var nonce, encryptedMetadata, next := ReadSection(input, pos, metadataSize);
    var plain := open(key, nonce, METADATA_AAD, encryptedMetadata);
    if plain.None? {
      status, output, cursor := Failed(Metadata), wavHeader, next;
      return;
    }
    var sha256sum := Take(plain.value, DIGEST_SIZE);
    assert AfterHeader(open, key, input, pos, headerPlain)
        == AfterMetadata(open, key, input, next, wavHeader, metadataSize, songSize, sha256sum);
    status, output, cursor := DecryptSongData(open, key, input, next, wavHeader, metadataSize, songSize, sha256sum);
  }

  /** The full chunks and the remainder, written after the wave header. */
  method DecryptSongData(open: Opener, key: seq<byte>, input: seq<byte>, pos: nat, wavHeader: seq<byte>,
                         ghost metadataSize: nat, songSize: nat, sha256sum: seq<byte>)
    returns (status: Status, output: seq<byte>, ghost cursor: nat)
    requires pos <= |input|
    ensures status == AfterMetadata(open, key, input, pos, wavHeader, metadataSize, songSize, sha256sum).status
    ensures output == AfterMetadata(open, key, input, pos, wavHeader, metadataSize, songSize, sha256sum).output
    ensures cursor == AfterMetadata(open, key, input, pos, wavHeader, metadataSize, songSize, sha256sum).cursor
  {
    var (chunkToRead, chunkRemainder) := ChunkCounts(songSize);
    var chunkPlain, next, failed := DecryptChunks(open, key, input, pos, sha256sum, chunkToRead);
    output := wavHeader + chunkPlain;
    if failed.Some? {
      status, cursor := Failed(Chunk(failed.value)), next;
      return;
    }
    var nonce, encryptedRemainder;
    nonce, encryptedRemainder, next := ReadSection(input, next, chunkRemainder);
    var last := open(key, nonce, sha256sum, encryptedRemainder);
    if last.None? {
      status, cursor := Failed(Remainder), next;
      return;
    }
    output := output + last.value;
    status, cursor := Decrypted, next;
  }
}
