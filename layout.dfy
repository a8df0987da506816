/**
 * Packed C struct layouts (`__attribute__((__packed__))`): fields follow one
 * another with no padding, so a field's offset is the sum of the sizes before it.
 */
module Layout {
  /** A packed struct as its list of fields, in declaration order. */
  datatype Struct = End | Field(name: Name, size: nat, rest: Struct)

  /** The field names of the modelled structs. */
  datatype Name =
    | Packing1 | FileSize | Packing2 | WavSize | WaveHeader | MetadataSize | Nonce
    | WaveHeaderMeta | Tag | Metadata | Data | MdSize | OwnerId | NumRegions | NumUsers
    | ProvisionedRegions | ProvisionedUsers | Md | Owner | Regions | Users
    | Sha256sum | WavHeader | WaveHeaderStruct

  /** sizeof(struct). */
  function SizeOf(s: Struct): nat {
    match s
    case End => 0
    case Field(_, n, rest) => n + SizeOf(rest)
  }

  predicate Has(s: Struct, name: Name) {
    match s
    case End => false
    case Field(f, _, rest) => f == name || Has(rest, name)
  }

  /** offsetof(struct, name): the first field of that name. */
  function OffsetOf(s: Struct, name: Name): nat {
    match s
    case End => 0
    case Field(f, n, rest) => if f == name then 0 else n + OffsetOf(rest, name)
  }

  /** The size of the first field of that name. */
  function FieldSize(s: Struct, name: Name): nat {
    match s
    case End => 0
    case Field(f, n, rest) => if f == name then n else FieldSize(rest, name)
  }

  /** Every field lies inside its struct. */
  lemma {:induction false} FieldWithin(s: Struct, name: Name)
    requires Has(s, name)
    ensures OffsetOf(s, name) + FieldSize(s, name) <= SizeOf(s)
  {
    match s
    case Field(f, n, rest) =>
      if f != name { FieldWithin(rest, name); }
  }

  /** No field is empty (a flexible array member is left out of the list). */
  predicate NonEmptyFields(s: Struct) {
    match s
    case End => true
    case Field(_, n, rest) => n > 0 && NonEmptyFields(rest)
  }

  /** Two distinct fields do not overlap: the one declared first ends before the other starts. */
  lemma {:induction false} FieldsDisjoint(s: Struct, a: Name, b: Name)
    requires NonEmptyFields(s)
    requires Has(s, a) && Has(s, b) && a != b
    requires OffsetOf(s, a) <= OffsetOf(s, b)
    ensures OffsetOf(s, a) + FieldSize(s, a) <= OffsetOf(s, b)
  {
    match s
    case Field(f, n, rest) =>
      if f == a {
        assert OffsetOf(s, b) == n + OffsetOf(rest, b);
      } else {
        assert OffsetOf(s, a) == n + OffsetOf(rest, a);
        assert f != b;
        FieldsDisjoint(rest, a, b);
      }
  }
}

/**
 * mb/drm_audio_fw/src/constants.h: the firmware's sizes and packed layouts.
 */
module FirmwareLayout {
  import opened Layout

  const CHUNK_SZ := 16000
  const PREVIEW_TIME_SEC := 30
  const AUDIO_SAMPLING_RATE := 48000
  const BYTES_PER_SAMP := 2
  const PREVIEW_SZ := PREVIEW_TIME_SEC * AUDIO_SAMPLING_RATE * BYTES_PER_SAMP

  const MAX_REGIONS := 32
  const REGION_NAME_SZ := 16
  const MAX_USERS := 64
  const USERNAME_SZ := 16
  const MAX_PIN_SZ := 8
  const MAX_SONG_SZ := 0x200_0000   // 1 << 25
  const HASHPIN_SZ := 65
  const SALT_SZ := 7

  const NONCE_SIZE := 12
  const WAVE_HEADER_SZ := 44
  const METADATA_SZ := 390
  const META_DATA_ALLOC := 4
  const MAC_SIZE := 16
  const SONG_CHUNK_SZ := 16000
  const ENC_BUFFER_SZ := 60

  /**
   * `#define ENC_WAVE_HEADER_SZ WAVE_HEADER_SZ + META_DATA_ALLOC` has no
   * parentheses; its one use is a whole call argument, so it reads as 48.
   */
  const ENC_WAVE_HEADER_SZ := WAVE_HEADER_SZ + META_DATA_ALLOC

  /** `ENC_CHUNK_SZ` is a sum in the same way; nothing in the firmware uses it. */
  const ENC_CHUNK_SZ := SONG_CHUNK_SZ + MAC_SIZE

  const WAVE_HEADER_STRUCT :=
    Field(Packing1, 4, Field(FileSize, 4, Field(Packing2, 32, Field(WavSize, 4, End))))
  const WAVE_HEADER_META_STRUCT :=
    Field(WaveHeader, SizeOf(WAVE_HEADER_STRUCT), Field(MetadataSize, 4, End))
  const ENCRYPTED_WAVEHEADER :=
    Field(Nonce, NONCE_SIZE, Field(WaveHeaderMeta, SizeOf(WAVE_HEADER_META_STRUCT), Field(Tag, MAC_SIZE, End)))
  const ENCRYPTED_METADATA :=
    Field(Nonce, NONCE_SIZE, Field(Tag, MAC_SIZE, Field(Metadata, METADATA_SZ, End)))
  const ENCRYPTED_SONG_CHUNK :=
    Field(Nonce, NONCE_SIZE, Field(Tag, MAC_SIZE, Field(Data, SONG_CHUNK_SZ, End)))
  /** The fixed part of `drm_md`; `buf[]` is a flexible array member. */
  const DRM_MD :=
    Field(MdSize, 1, Field(OwnerId, 1, Field(NumRegions, 1, Field(NumUsers, 1, End))))
  const PURDUE_MD :=
    Field(OwnerId, 4, Field(NumRegions, 1, Field(NumUsers, 1,
      Field(ProvisionedRegions, 128, Field(ProvisionedUsers, 256, End)))))
  const SONG :=
    Field(Packing1, 4, Field(FileSize, 4, Field(Packing2, 32, Field(WavSize, 4, Field(Md, SizeOf(DRM_MD), End)))))
  /** `query` is not packed, but all its fields are 4-byte aligned already. */
  const QUERY :=
    Field(NumRegions, 4, Field(NumUsers, 4, Field(Owner, USERNAME_SZ,
      Field(Regions, 512, Field(Users, 1024, End)))))

  // One fact per lemma: with one layout fact in context the solver
  // searches far longer for the next, so the per-struct lemmas collect them.
  lemma WaveHeaderSize() ensures SizeOf(WAVE_HEADER_STRUCT) == WAVE_HEADER_SZ {}
  lemma WaveHeaderFileSize() ensures OffsetOf(WAVE_HEADER_STRUCT, FileSize) == 4 {}
  lemma WaveHeaderWavSize() ensures OffsetOf(WAVE_HEADER_STRUCT, WavSize) == 40 {}
  lemma WaveHeaderMetaSize() ensures SizeOf(WAVE_HEADER_META_STRUCT) == 48 {}
  lemma WaveHeaderMetaMetadataSize() ensures OffsetOf(WAVE_HEADER_META_STRUCT, MetadataSize) == 44 {}
  lemma EncWaveheaderSize() ensures SizeOf(ENCRYPTED_WAVEHEADER) == 76 {}
  lemma EncWaveheaderCiphertext() ensures OffsetOf(ENCRYPTED_WAVEHEADER, WaveHeaderMeta) == 12 {}
  lemma EncWaveheaderTag() ensures OffsetOf(ENCRYPTED_WAVEHEADER, Tag) == 60 {}
  lemma EncMetadataSize() ensures SizeOf(ENCRYPTED_METADATA) == 418 {}
  lemma EncMetadataTag() ensures OffsetOf(ENCRYPTED_METADATA, Tag) == 12 {}
  lemma EncMetadataCiphertext() ensures OffsetOf(ENCRYPTED_METADATA, Metadata) == 28 {}
  lemma EncChunkSize() ensures SizeOf(ENCRYPTED_SONG_CHUNK) == 16028 {}
  lemma EncChunkTag() ensures OffsetOf(ENCRYPTED_SONG_CHUNK, Tag) == 12 {}
  lemma EncChunkCiphertext() ensures OffsetOf(ENCRYPTED_SONG_CHUNK, Data) == 28 {}
  lemma PurdueSize() ensures SizeOf(PURDUE_MD) == METADATA_SZ {}
  lemma PurdueRegions() ensures OffsetOf(PURDUE_MD, ProvisionedRegions) == 6 {}
  lemma PurdueUsers() ensures OffsetOf(PURDUE_MD, ProvisionedUsers) == 134 {}
  lemma SongFileSize() ensures OffsetOf(SONG, FileSize) == 4 {}
  lemma SongWavSize() ensures OffsetOf(SONG, WavSize) == 40 {}
  lemma SongMd() ensures OffsetOf(SONG, Md) == WAVE_HEADER_SZ {}
  lemma SongSize() ensures SizeOf(SONG) == WAVE_HEADER_SZ + 4 {}

  lemma PreviewSize()
    ensures PREVIEW_SZ == 2880000
  {
  }

  lemma WaveHeaderStructLayout()
    ensures SizeOf(WAVE_HEADER_STRUCT) == WAVE_HEADER_SZ
    ensures OffsetOf(WAVE_HEADER_STRUCT, FileSize) == 4
    ensures OffsetOf(WAVE_HEADER_STRUCT, WavSize) == 40
  {
    WaveHeaderSize(); WaveHeaderFileSize(); WaveHeaderWavSize();
  }

  lemma WaveHeaderMetaStructLayout()
    ensures SizeOf(WAVE_HEADER_META_STRUCT) == ENC_WAVE_HEADER_SZ == 48
    ensures OffsetOf(WAVE_HEADER_META_STRUCT, MetadataSize) == 44
  {
    WaveHeaderMetaSize(); WaveHeaderMetaMetadataSize();
  }

  /** The tag follows its ciphertext in the header section, and precedes it in the others. */
  lemma EncryptedLayouts()
    ensures SizeOf(ENCRYPTED_WAVEHEADER) == 76
    ensures OffsetOf(ENCRYPTED_WAVEHEADER, WaveHeaderMeta) == 12
    ensures OffsetOf(ENCRYPTED_WAVEHEADER, Tag) == 60
    ensures SizeOf(ENCRYPTED_METADATA) == 418
    ensures OffsetOf(ENCRYPTED_METADATA, Tag) == 12 && OffsetOf(ENCRYPTED_METADATA, Metadata) == 28
    ensures SizeOf(ENCRYPTED_SONG_CHUNK) == 16028
    ensures OffsetOf(ENCRYPTED_SONG_CHUNK, Tag) == 12 && OffsetOf(ENCRYPTED_SONG_CHUNK, Data) == 28
  {
    EncWaveheaderSize(); EncWaveheaderCiphertext(); EncWaveheaderTag();
    EncMetadataSize(); EncMetadataTag(); EncMetadataCiphertext();
    EncChunkSize(); EncChunkTag(); EncChunkCiphertext();
  }

  /** Despite the "100 bytes" comment, purdue_md is exactly METADATA_SZ bytes. */
  lemma PurdueMdLayout()
    ensures SizeOf(PURDUE_MD) == METADATA_SZ
    ensures OffsetOf(PURDUE_MD, ProvisionedRegions) == 6
    ensures OffsetOf(PURDUE_MD, ProvisionedUsers) == 134
  {
    PurdueSize(); PurdueRegions(); PurdueUsers();
  }

  lemma SongLayout()
    ensures OffsetOf(SONG, FileSize) == 4 && OffsetOf(SONG, WavSize) == 40
    ensures OffsetOf(SONG, Md) == WAVE_HEADER_SZ
    ensures SizeOf(SONG) == WAVE_HEADER_SZ + 4
  {
    SongFileSize(); SongWavSize(); SongMd(); SongSize();
  }

  // Accessor macros, as offsets from the start of `song` (the shared buffer).

  /** get_drm_rids(d): `d.md.buf`. */
  function DrmRids(): (off: nat)
    ensures off == OffsetOf(SONG, Md) + SizeOf(DRM_MD)
  {
    48
  }

  /** get_drm_uids(d): `d.md.buf + d.md.num_regions`, right after the region ids. */
  function DrmUids(numRegions: nat): (off: nat)
    ensures off == DrmRids() + numRegions
  {
    48 + numRegions
  }

  /** get_drm_song(d): `(char *)&d.md + d.md.md_size`. */
  function DrmSong(mdSize: nat): (off: nat)
    ensures off == OffsetOf(SONG, Md) + mdSize
  {
    44 + mdSize
  }

  /** q_region_lookup(q, i), from the start of `query`; a name slot of the regions array. */
  function QRegionLookup(i: nat): (off: nat)
    requires i < MAX_REGIONS
    ensures OffsetOf(QUERY, Regions) <= off
    ensures off + REGION_NAME_SZ <= OffsetOf(QUERY, Regions) + FieldSize(QUERY, Regions)
  {
    24 + i * REGION_NAME_SZ
  }

  /** q_user_lookup(q, i), from the start of `query`. */
  function QUserLookup(i: nat): (off: nat)
    requires i < MAX_USERS
    ensures OffsetOf(QUERY, Users) <= off
    ensures off + USERNAME_SZ <= OffsetOf(QUERY, Users) + FieldSize(QUERY, Users)
  {
    536 + i * USERNAME_SZ
  }

  // enum commands and enum states, numbered from 0 in declaration order.
  const QUERY_PLAYER := 0
  const QUERY_SONG := 1
  const LOGIN := 2
  const LOGOUT := 3
  const SHARE := 4
  const PLAY := 5
  const STOP := 6
  const DIGITAL_OUT := 7
  const PAUSE := 8
  const RESTART := 9
  const FF := 10
  const RW := 11
  const READ_HEADER := 12
  const READ_METADATA := 13
  const READ_CHUNK := 14
  const ENC_SHARE := 15
  const QUERY_ENC_SONG := 16

  const STOPPED := 0
  const WORKING := 1
  const PLAYING := 2
  const PAUSED := 3
  const WAITING_METADATA := 4
  const WAITING_CHUNK := 5
  const READING_CHUNK := 6
}

/**
 * miPod/src/miPodCpp.h: the host player's sizes and packed layouts.
 */
module HostLayout {
  import opened Layout

  const USR_CMD_SZ := 64
  const MAX_REGIONS := 32
  const REGION_NAME_SZ := 16
  const MAX_USERS := 64
  const USERNAME_SZ := 16
  const MAX_PIN_SZ := 8
  const MAX_SONG_SZ := 0x200_0000
  const HASHPIN_SZ := 32
  const SALT_SZ := 7

  const AUDIO_SAMPLING_RATE := 48000
  const BYTES_PER_SAMP := 2
  const NONCE_SIZE := 12
  const MAC_SIZE := 16
  const WAVE_HEADER_SZ := 44
  const METADATA_SZ := 390
  /** Unparenthesised like the firmware's, and a different sum: 44 + 12 + 16. */
  const ENC_WAVE_HEADER_SZ := WAVE_HEADER_SZ + NONCE_SIZE + MAC_SIZE
  const ENC_METADATA_SZ := METADATA_SZ + NONCE_SIZE + MAC_SIZE
  const META_DATA_ALLOC := 4
  const SONG_CHUNK_SZ := 16000
  const ENC_BUFFER_SZ := 60
  const SHA_256_SUM_SZ := 32

  const PURDUE_MD :=
    Field(Sha256sum, SHA_256_SUM_SZ, Field(OwnerId, 4, Field(NumRegions, 1, Field(NumUsers, 1,
      Field(ProvisionedRegions, 128, Field(ProvisionedUsers, 256, End))))))
  const WAVE_HEADER_STRUCT :=
    Field(WavHeader, WAVE_HEADER_SZ, Field(MetadataSize, 4, End))
  const ENCRYPTED_WAVEHEADER :=
    Field(Nonce, NONCE_SIZE, Field(WaveHeaderStruct, SizeOf(WAVE_HEADER_STRUCT), Field(Tag, MAC_SIZE, End)))
  const ENCRYPTED_METADATA :=
    Field(Nonce, NONCE_SIZE, Field(Tag, MAC_SIZE, Field(Metadata, METADATA_SZ, End)))
  const ENCRYPTED_SONG_CHUNK :=
    Field(Nonce, NONCE_SIZE, Field(Tag, MAC_SIZE, Field(Data, SONG_CHUNK_SZ, End)))
  const QUERY_STRUCT :=
    Field(NumRegions, 4, Field(NumUsers, 4, Field(Owner, USERNAME_SZ,
      Field(Regions, 512, Field(Users, 1024, End)))))

  lemma EncWaveheaderSize() ensures SizeOf(ENCRYPTED_WAVEHEADER) == 76 {}
  lemma EncWaveheaderTag() ensures OffsetOf(ENCRYPTED_WAVEHEADER, Tag) == 60 {}
  lemma EncMetadataSize() ensures SizeOf(ENCRYPTED_METADATA) == 418 {}
  lemma EncMetadataCiphertext() ensures OffsetOf(ENCRYPTED_METADATA, Metadata) == 28 {}
  lemma EncChunkSize() ensures SizeOf(ENCRYPTED_SONG_CHUNK) == 16028 {}
  lemma EncChunkCiphertext() ensures OffsetOf(ENCRYPTED_SONG_CHUNK, Data) == 28 {}
  lemma PurdueSum() ensures OffsetOf(PURDUE_MD, Sha256sum) == 0 {}
  lemma PurdueSumSize() ensures FieldSize(PURDUE_MD, Sha256sum) == 32 {}
  lemma PurdueSize() ensures SizeOf(PURDUE_MD) == 422 {}

  /** The file offset of the metadata section: `ENC_WAVE_HEADER_SZ + META_DATA_ALLOC` expands to 44+12+16+4. */
  lemma EncryptedWaveheaderLayout()
    ensures ENC_WAVE_HEADER_SZ + META_DATA_ALLOC == 76 == SizeOf(ENCRYPTED_WAVEHEADER)
    ensures OffsetOf(ENCRYPTED_WAVEHEADER, Tag) == 60
  {
    EncWaveheaderSize(); EncWaveheaderTag();
  }

  lemma EncryptedMetadataLayout()
    ensures ENC_METADATA_SZ == 418 == SizeOf(ENCRYPTED_METADATA)
    ensures OffsetOf(ENCRYPTED_METADATA, Metadata) == NONCE_SIZE + MAC_SIZE
  {
    EncMetadataSize(); EncMetadataCiphertext();
  }

  lemma EncryptedSongChunkLayout()
    ensures SizeOf(ENCRYPTED_SONG_CHUNK) == 16028
    ensures OffsetOf(ENCRYPTED_SONG_CHUNK, Data) == 28
  {
    EncChunkSize(); EncChunkCiphertext();
  }

  /**
   * The host's purdue_md begins with the 32-byte sha256 sum, the bytes the
   * offline decoder takes as chunk associated data, and so is 32 bytes longer
   * than METADATA_SZ.
   */
  lemma PurdueMdLayout()
    ensures OffsetOf(PURDUE_MD, Sha256sum) == 0 && FieldSize(PURDUE_MD, Sha256sum) == 32
    ensures SizeOf(PURDUE_MD) == 422 == METADATA_SZ + SHA_256_SUM_SZ
  {
    PurdueSum(); PurdueSumSize(); PurdueSize();
  }

  /** `songBuffer[ENC_BUFFER_SZ * SONG_CHUNK_SZ]`: 960,000 bytes. */
  const SONG_BUFFER_SZ := ENC_BUFFER_SZ * SONG_CHUNK_SZ

  /** `&c->songBuffer[SONG_CHUNK_SZ * k]`: slot k holds one decrypted chunk. */
  function SongSlot(k: nat): (off: nat)
    requires k < ENC_BUFFER_SZ
    ensures off + SONG_CHUNK_SZ <= SONG_BUFFER_SZ
    ensures off % SONG_CHUNK_SZ == 0
  {
    SONG_CHUNK_SZ * k
  }

  /** Distinct slots do not overlap. */
  lemma SongSlotsDisjoint(j: nat, k: nat)
    requires j < k < ENC_BUFFER_SZ
    ensures SongSlot(j) + SONG_CHUNK_SZ <= SongSlot(k)
  {
  }

  /** q_region_lookup(q, i) and q_user_lookup(q, i), from the start of `queryStruct`. */
  function QRegionLookup(i: nat): (off: nat)
    requires i < MAX_REGIONS
    ensures OffsetOf(QUERY_STRUCT, Regions) <= off
    ensures off + REGION_NAME_SZ <= OffsetOf(QUERY_STRUCT, Regions) + FieldSize(QUERY_STRUCT, Regions)
  {
    24 + i * REGION_NAME_SZ
  }

  function QUserLookup(i: nat): (off: nat)
    requires i < MAX_USERS
    ensures OffsetOf(QUERY_STRUCT, Users) <= off
    ensures off + USERNAME_SZ <= OffsetOf(QUERY_STRUCT, Users) + FieldSize(QUERY_STRUCT, Users)
  {
    536 + i * USERNAME_SZ
  }

  // enum commands and enum states of the host, numbered from 0 in declaration order.
  const QUERY_PLAYER := 0
  const QUERY_SONG := 1
  const LOGIN := 2
  const LOGOUT := 3
  const SHARE := 4
  const PLAY := 5
  const STOP := 6
  const DIGITAL_OUT := 7
  const PAUSE := 8
  const RESTART := 9
  const FF := 10
  const RW := 11
  const PLAY_SONG := 12
  const READ_HEADER := 13
  const READ_METADATA := 14
  const WAIT_FOR_CHUNK := 15
  const READ_CHUNK := 16
  const ENC_SHARE := 17
  const QUERY_ENC_SONG := 18

  const STOPPED := 0
  const WORKING := 1
  const PLAYING := 2
  const PAUSED := 3
  const WAITING_FILE_HEADER := 4
  const WAITING_METADATA := 5
  const WAITING_CHUNK := 6
  const READING_CHUNK := 7
}

/** Where the two headers agree and where they do not. */
module LayoutAgreement {
  import opened Layout
  import F = FirmwareLayout
  import H = HostLayout

  lemma SectionsAgree()
    ensures SizeOf(F.ENCRYPTED_WAVEHEADER) == SizeOf(H.ENCRYPTED_WAVEHEADER)
    ensures SizeOf(F.ENCRYPTED_METADATA) == SizeOf(H.ENCRYPTED_METADATA) == H.ENC_METADATA_SZ
    ensures SizeOf(F.ENCRYPTED_SONG_CHUNK) == SizeOf(H.ENCRYPTED_SONG_CHUNK)
  {
    F.EncryptedLayouts();
    H.EncryptedWaveheaderLayout(); H.EncryptedMetadataLayout(); H.EncryptedSongChunkLayout();
  }

  /** The same macro name stands for different sums in the two headers. */
  lemma EncWaveHeaderSzDiffers()
    ensures F.ENC_WAVE_HEADER_SZ == 48 && H.ENC_WAVE_HEADER_SZ == 72
  {
  }

  /**
   * The twelve commands QUERY_PLAYER..RW and the four states STOPPED..PAUSED
   * share their numbers; after them the host inserts PLAY_SONG and
   * WAITING_FILE_HEADER, so the host's READ_HEADER (13) is the firmware's
   * READ_METADATA, the host's READ_CHUNK (16) is the firmware's
   * QUERY_ENC_SONG, and the host's WAITING_METADATA (5) is the firmware's
   * WAITING_CHUNK.
   */
  lemma EnumsDiffer()
    ensures F.READ_HEADER != H.READ_HEADER && H.READ_HEADER == F.READ_METADATA
    ensures H.READ_CHUNK == F.QUERY_ENC_SONG
    ensures H.WAITING_METADATA == F.WAITING_CHUNK && H.WAITING_CHUNK == F.READING_CHUNK
    ensures F.QUERY_PLAYER == H.QUERY_PLAYER && F.QUERY_SONG == H.QUERY_SONG && F.LOGIN == H.LOGIN
    ensures F.LOGOUT == H.LOGOUT && F.SHARE == H.SHARE && F.PLAY == H.PLAY && F.STOP == H.STOP
    ensures F.DIGITAL_OUT == H.DIGITAL_OUT && F.PAUSE == H.PAUSE && F.RESTART == H.RESTART
    ensures F.FF == H.FF && F.RW == H.RW
    ensures F.STOPPED == H.STOPPED && F.WORKING == H.WORKING && F.PLAYING == H.PLAYING && F.PAUSED == H.PAUSED
  {
  }
}
