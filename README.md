# Encrypted song container: decoder, DRM firmware and host, in Dafny

The system plays DRM-protected songs on a two-processor board. One
encrypted song container format is read by three programs:

- the offline decoder `decrypt_song` (Python). It walks the container with
  a file cursor and opens each section with ChaCha20-Poly1305, the AEAD
  construction of section 2.8 of RFC 8439:
  - a header section: nonce, then 48 bytes of plaintext (the 44-byte wave
    header and `metadata_size`) sealed with their tag;
  - a metadata section;
  - `song_size div 16000` full chunk sections;
  - one remainder section, which is always present.
  The decoder writes the wave header and the decrypted chunks to the output.
- the DRM firmware (C, on the MicroBlaze core). It provides:
  - user and region tables and their lookups, and `hextobin`;
  - login and logout over hashed PINs;
  - the song-metadata record, with `load_song_md`, `gen_song_md` and the
    `is_locked` rule;
  - `share_song` and `digital_out`, which edit the song buffer in place;
  - the tag checks of the encrypted-song reader;
  - the 30-chunk batches of `play_encrypted_song`, which alternate between
    two halves of a 60-slot buffer.
- two host programs (C++, on the Linux core), `miPod` and the older
  `mb/miPod`. They parse commands, check login arguments, copy encrypted
  sections into the shared command channel, write the decrypted chunks
  back out, and splice a re-encrypted metadata section into a shared file.

The Dafny modules follow the source files:

| module | models |
|---|---|
| `Bytes`, `Wrappers`, `CString`, `Memory` | machine integers, little-endian fields, C strings, `memmove`/`memcpy` |
| `Aead`, `SongContainer` | the AEAD as a parameter, and the format written out as an encoder |
| `UnprotectSong`, `UnprotectSongLemmas` | `decrypt_song` and its properties |
| `Layout`, `FirmwareLayout`, `HostLayout`, `LayoutAgreement` | the two headers' constants, packed structs, accessor macros and enums |
| `DrmHex`, `DrmTables`, `DrmMetadata`, `DrmSchedule`, `DrmFirmware` | the firmware |
| `HostInput`, `HostLogin`, `HostChannel`, `HostPlayback`, `HostShare` | the two host programs |

Three things are parameters: the AEAD (`Opener`/`Sealer`), the Poly1305 run
(`Run`) and SHA-256. The model states what is proved for any such functions
that keep the documented lengths.

## Model

| member | source | states |
|---|---|---|
| `Bytes.LittleEndian32Agrees` | tools/unprotectSong.py:69-79 | a 4-byte little-endian field read the general way equals the position-by-position u32 reading |
| `Bytes.U32BytesRoundTrip` | mb/drm_audio_fw/src/constants.h:118-128 | reading back the four little-endian bytes of a u32 field gives the value |
| `Bytes.U32OfI32Wraps` | mb/drm_audio_fw/src/main.c:282-286 | C's int-to-unsigned conversion is the reduction modulo 2^32 |
| `Bytes.I32OfU32` | mb/drm_audio_fw/src/main.c:771-772 | unsigned-to-int conversion is the inverse of the int-to-unsigned one |
| `Bytes.I32OfU32RoundTrip` | mb/drm_audio_fw/src/main.c:771-772 | an int stored through an unsigned return type and read back as int is unchanged |
| `Bytes.AddU32Wraps` | mb/drm_audio_fw/src/main.c:602-603 | the case-split 32-bit addition is the sum reduced modulo 2^32 |
| `Bytes.WrapDiff` | mb/drm_audio_fw/src/main.c:750-756 | reducing both operands first keeps a difference unchanged modulo 2^32 |
| `CString.StrOfTerminated` | mb/drm_audio_fw/src/main.c:220-248 | a buffer holding a string then its terminator reads back as exactly that string |
| `Memory.MovedInPlace` | mb/drm_audio_fw/src/main.c:596-597 | a move onto itself changes nothing |
| `Memory.Memmove` | mb/drm_audio_fw/src/main.c:761 | `memmove` gives the buffer in which the destination holds the source's old bytes and nothing else changed, for overlapping ranges in either direction |
| `Memory.CopyForward` | mb/drm_audio_fw/src/main.c:761 | a front-to-back copy is a correct move when the destination lies below the source |
| `Memory.CopyBackward` | mb/drm_audio_fw/src/main.c:597 | a back-to-front copy is a correct move when the destination lies above the source |
| `Memory.MovedRange` | mb/drm_audio_fw/src/main.c:761 | after a move the destination range equals the old source range |
| `Memory.CopyIn` | mb/drm_audio_fw/src/main.c:599 | `memcpy` of a record over the front of the buffer, with the rest unchanged |
| `SongContainer.SealSectionLength` | tools/unprotectSong.py:91-106 | a sealed section is 28 bytes longer than its plaintext |
| `SongContainer.SectionRoundTrip` | tools/unprotectSong.py:91-106 | reading a sealed section back gives its nonce and ciphertext ‖ tag, and these open to the plaintext |
| `SongContainer.SectionFields` | tools/unprotectSong.py:91-103 | a slice holding nonce ‖ tag ‖ ciphertext is read back as the nonce and ciphertext ‖ tag |
| `SongContainer.EncodeChunksLength` | tools/unprotectSong.py:115-124 | encoded full chunks take 16028 bytes each |
| `SongContainer.ChunksRoundTrip` | tools/unprotectSong.py:115-130 | the chunk loop over encoded chunks yields the song's first chunks in order and stops after them |
| `SongContainer.HeaderPlaintextFields` | tools/unprotectSong.py:69-79 | the decoder's size fields read back the sizes the header plaintext was built with |
| `SongContainer.HeaderSectionLength` | tools/unprotectSong.py:32-61 | the header section is 76 bytes |
| `SongContainer.HeaderRoundTrip` | tools/unprotectSong.py:57-66 | a sealed header section opens back to the header plaintext |
| `SongContainer.ContainerLayout` | tools/unprotectSong.py:57-152 | a container is its header, metadata, chunk and remainder sections laid end to end |
| `SongContainer.LaidOutSections` | tools/unprotectSong.py:57-152 | in a laid-out container each section sits at the offset the decoder reads it from |
| `SongContainer.ContainerRoundTrip` | tools/unprotectSong.py:57-152 | any container decodes to success: the output is the 44-byte wave header then the whole song, the cursor ends at the container's end, and both sizes are reported |
| `SongContainer.DecodeSectionsAt` | tools/unprotectSong.py:57-152 | the same for any input whose sections sit where a container puts them |
| `SongContainer.ContainerTail` | tools/unprotectSong.py:115-152 | the chunk loop and the remainder of a laid-out container open to the whole payload |
| `SongContainer.RemainderOpens` | tools/unprotectSong.py:139-152 | the remainder section opens to the payload after the full chunks and ends the input |
| `SongContainer.ChunksAt` | tools/unprotectSong.py:115-130 | the full chunks open to the payload's first 16000·n bytes |
| `SongContainer.TailSucceeds` | tools/unprotectSong.py:115-152 | when every chunk and the remainder open, the decode after the metadata succeeds with their plaintexts appended |
| `UnprotectSong.Read` | tools/unprotectSong.py:57-99 | `read(n)` returns min(n, bytes left) bytes from the cursor |
| `UnprotectSong.ChunkCounts` | tools/unprotectSong.py:83-87 | full-chunk count and remainder satisfy count·16000 + remainder = song_size with remainder < 16000 |
| `UnprotectSong.HeaderQuery` | tools/unprotectSong.py:57-66 | the header request takes the first 12 bytes as nonce and the next 64 unchanged, consuming min(76, file size) bytes |
| `UnprotectSong.SectionQuery` | tools/unprotectSong.py:91-106 | a section request is nonce(12), then ciphertext ‖ tag rebuilt from the on-disk tag(16) and ciphertext; the cursor moves forward and stays inside the file |
| `UnprotectSong.ChunkStep` | tools/unprotectSong.py:115-130 | one iteration only appends to the output; after a failure nothing changes; a new failure records its own index and appends nothing |
| `UnprotectSong.Chunks` | tools/unprotectSong.py:115-130 | the loop over chunks 1..count stays inside the file, and a failure index lies in 1..count |
| `UnprotectSong.Decode` | tools/unprotectSong.py:57-152 | the cursor stays inside the file; a header failure writes nothing and leaves the cursor at min(76, file size) |
| `UnprotectSong.AfterHeader` | tools/unprotectSong.py:69-111 | metadata_size is the little-endian value of the plaintext's last 4 bytes, song_size that of bytes 40..44, and the output starts with plaintext[0..44) |
| `UnprotectSong.AfterMetadata` | tools/unprotectSong.py:111-152 | past the metadata the reported sizes stay as read and the output starts with the wave header |
| `UnprotectSong.ChunksFailureSticks` | tools/unprotectSong.py:127 | once a chunk has failed, later iterations change nothing |
| `UnprotectSong.ReadSection` | tools/unprotectSong.py:91-103 | the three reads of a section and its re-concatenation equal the section request |
| `UnprotectSong.DecryptChunks` | tools/unprotectSong.py:115-136 | the chunk loop (a method with a cursor) ends with the state the loop function gives |
| `UnprotectSong.DecryptSong` | tools/unprotectSong.py:42-158 | `decrypt_song` (cursor, appended output, reassigned locals) ends with exactly the outcome and output of the decode function |
| `UnprotectSong.DecryptBody` | tools/unprotectSong.py:69-111 | the stage after the header agrees with its function |
| `UnprotectSong.DecryptSongData` | tools/unprotectSong.py:115-152 | the stage after the metadata agrees with its function |
| `UnprotectSongLemmas.FullSection` | tools/unprotectSong.py:91-106 | a section that fits in the input is read in full and opens to ctLen bytes |
| `UnprotectSongLemmas.HeaderSlices` | tools/unprotectSong.py:69-79 | where the wave header and the two size fields sit in the 48-byte plaintext |
| `UnprotectSongLemmas.HeaderFields` | tools/unprotectSong.py:69-79 | metadata_size comes from plaintext bytes 44..48, song_size from 40..44, and the header written out is bytes 0..44 |
| `UnprotectSongLemmas.ChunkPlainGrows` | tools/unprotectSong.py:130 | what an earlier chunk iteration wrote stays written |
| `UnprotectSongLemmas.FullChunks` | tools/unprotectSong.py:115-130 | each of count clean full chunks consumes 16028 bytes and yields 16000 |
| `UnprotectSongLemmas.MetadataStage` | tools/unprotectSong.py:91-111 | after the metadata opens, the decode continues from the byte after it, with the first 32 metadata bytes as chunk aad |
| `UnprotectSongLemmas.MetadataOutcome` | tools/unprotectSong.py:76-106 | when the metadata fails, the output is the 44-byte header alone |
| `UnprotectSongLemmas.SuccessLayout` | tools/unprotectSong.py:76-152 | on success over a whole container the cursor advances 76 + 28 + metadata_size + 28·(count+1) + song_size, and the output is the header then song_size bytes |
| `UnprotectSongLemmas.DecodedTail` | tools/unprotectSong.py:111-152 | the stage after the metadata can be read off a decode that got past it |
| `UnprotectSongLemmas.SuccessTail` | tools/unprotectSong.py:115-152 | the success facts of the chunk and remainder stage |
| `UnprotectSongLemmas.FailureOutput` | tools/unprotectSong.py:66-152 | a failed section writes nothing from itself on: no output for the header, the header for the metadata, the header and k-1 chunks for chunk k, and every full chunk for the remainder |
| `UnprotectSongLemmas.DecodedTailFailure` | tools/unprotectSong.py:115-152 | the failure facts, read off a decode past the metadata |
| `UnprotectSongLemmas.TailFailure` | tools/unprotectSong.py:115-152 | the failure facts of the chunk loop and the remainder |
| `UnprotectSongLemmas.ChunkFailureOutput` | tools/unprotectSong.py:115-130 | a loop that failed at chunk k kept the plaintext of the k-1 chunks before it |
| `UnprotectSongLemmas.FirstFailure` | tools/unprotectSong.py:115-130 | a failing loop failed at some first k, after k-1 clean iterations |
| `Layout.FieldWithin` | mb/drm_audio_fw/src/constants.h:90-148 | every field lies inside its packed struct |
| `Layout.FieldsDisjoint` | mb/drm_audio_fw/src/constants.h:90-148 | distinct fields of a packed struct do not overlap |
| `FirmwareLayout.PreviewSize` | mb/drm_audio_fw/src/constants.h:14-19 | PREVIEW_SZ = 30·48000·2 = 2,880,000 |
| `FirmwareLayout.WaveHeaderStructLayout` | mb/drm_audio_fw/src/constants.h:118-123 | waveHeaderStruct is 44 bytes, with file_size at 4 and wav_size at 40 |
| `FirmwareLayout.WaveHeaderMetaStructLayout` | mb/drm_audio_fw/src/constants.h:125-128 | waveHeaderMetaStruct is 48 bytes, exactly the ENC_WAVE_HEADER_SZ that read_header (main.c line 276) passes as the length of the struct it copied, with metadata_size at 44 |
| `FirmwareLayout.EncryptedLayouts` | mb/drm_audio_fw/src/constants.h:130-148 | the three encrypted structs are 76, 418 and 16028 bytes; the header's tag follows its ciphertext, the others' precede it |
| `FirmwareLayout.PurdueMdLayout` | mb/drm_audio_fw/src/constants.h:99-105 | purdue_md is exactly METADATA_SZ (390) bytes, with the region list at 6 and the user list at 134 |
| `FirmwareLayout.SongLayout` | mb/drm_audio_fw/src/constants.h:110-116 | song has file_size at 4, wav_size at 40 and the metadata record at 44 |
| `FirmwareLayout.DrmRids` | mb/drm_audio_fw/src/constants.h:153 | get_drm_rids is the record's flexible buffer, right after its fixed part |
| `FirmwareLayout.DrmUids` | mb/drm_audio_fw/src/constants.h:154 | get_drm_uids is num_regions bytes after the region ids |
| `FirmwareLayout.DrmSong` | mb/drm_audio_fw/src/constants.h:155 | get_drm_song is md_size bytes after the start of the record |
| `FirmwareLayout.QRegionLookup` | mb/drm_audio_fw/src/constants.h:76-85 | q_region_lookup(i) lies inside the query's regions array for i < MAX_REGIONS |
| `FirmwareLayout.QUserLookup` | mb/drm_audio_fw/src/constants.h:76-86 | q_user_lookup(i) lies inside the query's users array for i < MAX_USERS |
| `HostLayout.EncryptedWaveheaderLayout` | miPod/src/miPodCpp.h:91-100 | ENC_WAVE_HEADER_SZ + META_DATA_ALLOC expands to 44+12+16+4 = 76 = sizeof(encryptedWaveheader) |
| `HostLayout.EncryptedMetadataLayout` | miPod/src/miPodCpp.h:102-106 | ENC_METADATA_SZ = 418 = sizeof(encryptedMetadata), with the ciphertext after nonce and tag |
| `HostLayout.EncryptedSongChunkLayout` | miPod/src/miPodCpp.h:110-114 | encryptedSongChunk is nonce(12), tag(16), data(16000), 16028 bytes |
| `HostLayout.PurdueMdLayout` | miPod/src/miPodCpp.h:82-89 | the host's purdue_md starts with the 32-byte sha256sum and is 422 bytes |
| `HostLayout.SongSlot` | miPod/src/miPodCpp.h:144 | songBuffer slot k starts at 16000·k and ends inside the 960,000-byte buffer |
| `HostLayout.SongSlotsDisjoint` | miPod/src/miPodCpp.h:144 | distinct slots do not overlap |
| `HostLayout.QRegionLookup` | miPod/src/miPodCpp.h:70-79 | q_region_lookup(i) lies inside queryStruct's regions array |
| `HostLayout.QUserLookup` | miPod/src/miPodCpp.h:70-80 | q_user_lookup(i) lies inside queryStruct's users array |
| `LayoutAgreement.SectionsAgree` | miPod/src/miPodCpp.h:91-114 | the two headers give the three encrypted structs the same sizes |
| `LayoutAgreement.EncWaveHeaderSzDiffers` | miPod/src/miPodCpp.h:41 | ENC_WAVE_HEADER_SZ is 48 in the firmware and 72 in the host |
| `LayoutAgreement.EnumsDiffer` | miPod/src/miPodCpp.h:125-126 | the twelve commands QUERY_PLAYER..RW and the four states STOPPED..PAUSED agree, while the host's READ_HEADER, READ_CHUNK and WAITING_* are other commands and states in the firmware (constants.h lines 159-160) |
| `DrmHex.Digits` | mb/drm_audio_fw/src/main.c:228-238 | the scan yields at most one digit per character (the digit values of the hex characters, in order) |
| `DrmHex.PackSnoc` | mb/drm_audio_fw/src/main.c:239-245 | one more digit either completes hi·16+lo with the waiting digit or becomes the waiting digit |
| `DrmHex.DigitsPrefix` | mb/drm_audio_fw/src/main.c:228-246 | the digits of a prefix are a prefix of the digits |
| `DrmHex.HexToBin` | mb/drm_audio_fw/src/main.c:220-248 | hextobin writes the pairs of the string's hex digits, returns ⌊digits/2⌋, drops an odd last digit and writes nothing else |
| `DrmHex.Feed` | mb/drm_audio_fw/src/main.c:239-245 | one digit step of the loop: completes and writes a byte or waits |
| `DrmHex.DigitsPrefixOfStr` | mb/drm_audio_fw/src/main.c:228-229 | before the terminator the scan has seen a prefix of the string's digits |
| `DrmHex.HexRoundTrip` | mb/drm_audio_fw/src/main.c:220-248 | hextobin inverts lower-case hex encoding |
| `DrmTables.CharAsU32` | mb/drm_audio_fw/src/main.c:65-72 | a `char` parameter compares with a u32 entry as the sign-extended low byte |
| `DrmTables.FirstAt` | mb/drm_audio_fw/src/main.c:75-146 | the first match is the index before which nothing matches |
| `DrmTables.IsProvisionedRid` | mb/drm_audio_fw/src/main.c:65-72 | is_provisioned_rid answers whether the truncated id is among the provisioned region ids |
| `DrmTables.IsProvisionedUid` | mb/drm_audio_fw/src/main.c:107-114 | is_provisioned_uid answers whether the truncated id is among the provisioned user ids |
| `DrmTables.WideRidNotProvisioned` | mb/drm_audio_fw/src/main.c:65-72 | an id with a low byte of 128 or more never matches a provisioned id below 0xFFFFFF00 |
| `DrmTables.RegionNameOf` | mb/drm_audio_fw/src/main.c:75-87 | the name of the first region with the id that passes the filter, else "<unknown region>" and false |
| `DrmTables.RidToRegionName` | mb/drm_audio_fw/src/main.c:75-87 | rid_to_region_name's loop returns exactly that answer |
| `DrmTables.RidOfName` | mb/drm_audio_fw/src/main.c:91-103 | the id of the first region of that name that passes the filter, else -1 and false |
| `DrmTables.RegionNameToRid` | mb/drm_audio_fw/src/main.c:91-103 | region_name_to_rid's loop returns exactly that answer |
| `DrmTables.DeviceName` | mb/drm_audio_fw/src/constants.h:47-52 | the string strcmp reads at a user's name: up to its NUL, or all 16 bytes followed by the hashedPin's string when the name fills its array; never holding a NUL |
| `DrmTables.UsernameOf` | mb/drm_audio_fw/src/main.c:118-130 | the name (as DeviceName reads it) of the first user with the id that passes the filter, else "<unknown user>" and false |
| `DrmTables.UidToUsername` | mb/drm_audio_fw/src/main.c:118-130 | uid_to_username's loop returns exactly that answer |
| `DrmTables.UidOfName` | mb/drm_audio_fw/src/main.c:134-146 | the id, as a u8, of the first user of that name that passes the filter, else 255 and false |
| `DrmTables.UsernameToUid` | mb/drm_audio_fw/src/main.c:134-146 | username_to_uid's loop returns exactly that answer |
| `DrmTables.UserRoundTrip` | mb/drm_audio_fw/src/main.c:118-146 | with distinct names as strcmp reads them, the name found for a user id leads back to the id, as far as a u8 holds it |
| `DrmTables.NameFindsItsUser` | mb/drm_audio_fw/src/main.c:134-146 | with distinct names as strcmp reads them, the name of entry i finds entry i |
| `DrmTables.RegionRoundTrip` | mb/drm_audio_fw/src/main.c:75-103 | with distinct names, the name found for a region id leads back to the id as a signed char |
| `DrmTables.NameFindsItsRegion` | mb/drm_audio_fw/src/main.c:91-103 | with distinct names, the name of region i finds region i |
| `DrmMetadata.Load` | mb/drm_audio_fw/src/main.c:150-157 | a loaded record always fits the local arrays (LoadGen and LoadTwice say what it holds) |
| `DrmMetadata.LoadTwice` | mb/drm_audio_fw/src/main.c:150-157 | loading twice is loading once |
| `DrmMetadata.MdLen` | mb/drm_audio_fw/src/main.c:210 | the record length ((5+nr+nu)/2)·2 is even and lies in [4+nr+nu, 5+nr+nu] |
| `DrmMetadata.Gen` | mb/drm_audio_fw/src/main.c:209-218 | gen_song_md lays out length, owner, counts, region ids, then user ids |
| `DrmMetadata.LoadGen` | mb/drm_audio_fw/src/main.c:150-218 | loading a generated record gives back the metadata, with md_size the generated length |
| `DrmMetadata.CheckUser` | mb/drm_audio_fw/src/main.c:170-178 | the user loop finds the owner, or a uid among the first NUM_PROVISIONED_USERS entries, whatever num_users says |
| `DrmMetadata.CheckRegion` | mb/drm_audio_fw/src/main.c:187-194 | the region loops find whether some listed rid equals one of the provisioned ids |
| `DrmMetadata.SharedUserAuthorized` | mb/drm_audio_fw/src/main.c:173-177 | a user appended by a share passes the user check exactly when its index is below NUM_PROVISIONED_USERS or it passed already |
| `DrmSchedule.ToggleOffsetInvolution` | mb/drm_audio_fw/src/main.c:380-388 | on the two halves 0 and 1, toggle_offset gives the other half (1 − offset) and toggling twice restores the offset |
| `DrmSchedule.NextCounter` | mb/drm_audio_fw/src/main.c:816-833 | a clean batch advances the counter by the full chunks it read |
| `DrmSchedule.PlanShape` | mb/drm_audio_fw/src/main.c:816-833 | a batch makes at most 30 calls, call i on slot i + 30·offset inside its half, chunk counter+i, 16000 bytes below chunks_to_read and the remainder at it, and none past it |
| `DrmSchedule.RemainderRepeats` | mb/drm_audio_fw/src/main.c:824-829 | at counter = chunks_to_read, every command opens the remainder again from the first slot of its half |
| `DrmSchedule.ScheduleShape` | mb/drm_audio_fw/src/main.c:816-840 | a playback opens each chunk number from the counter to chunks_to_read once and in order, call j on slot (j + 30·offset) mod 60, and only the last call reads the remainder |
| `DrmSchedule.SlotOfLaterBatch` | mb/drm_audio_fw/src/main.c:817-837 | the next batch's slots continue modulo 60 in the other half |
| `DrmSchedule.PlaybackReads` | mb/drm_audio_fw/src/main.c:782-840 | from the start, a playback reads chunks 1..chunks_to_read-1 in full and chunk chunks_to_read at the remainder's size, 16000 bytes fewer than the song holds |
| `DrmSchedule.SizesAdd` | mb/drm_audio_fw/src/main.c:816-833 | the bytes a list of calls decrypts add up over concatenation |
| `DrmFirmware.StoredHash` | mb/drm_audio_fw/src/main.c:436-439 | binHash holds 32 bytes: the bytes hextobin packs from the provisioned hex, then what the stack held there before |
| `DrmFirmware.StoredHashOfHex` | mb/drm_audio_fw/src/main.c:436-439 | a hashedPin that is the lower-case hex of 32 bytes yields exactly those bytes, whatever the stack held |
| `DrmFirmware.PinMessageCases` | mb/drm_audio_fw/src/main.c:250-260 | a PIN shorter than 8 bytes is hashed as PIN ‖ the first 7 salt characters whatever the stack held; an 8-character PIN has the string in the stale bytes of concatPin between them |
| `DrmFirmware.FullChannelName` | mb/drm_audio_fw/src/constants.h:171-172 | a 16-character channel name reads on into the PIN; it then names only a device user whose 16 name bytes are the same and whose hashedPin string is the PIN's string, never one with a hash longer than 8 characters |
| `DrmFirmware.LoginEntry` | mb/drm_audio_fw/src/main.c:431-433 | the login loop's entry is the first provisioned user whose name strcmp finds equal, or none |
| `DrmFirmware.SharedLen` | mb/drm_audio_fw/src/main.c:591-592 | the length gen_song_md gives a loaded record with one more user |
| `DrmFirmware.SharedMd` | mb/drm_audio_fw/src/main.c:591 | a share appends the uid at index num_users and increments num_users |
| `DrmFirmware.SharedSong` | mb/drm_audio_fw/src/main.c:595-599 | the buffer after a share: the new record over the front, then the moved audio; with an unchanged length nothing is moved |
| `DrmFirmware.ShareKeepsSong` | mb/drm_audio_fw/src/main.c:590-603 | after a share the audio sits right behind the new record, and loading the buffer gives the new record |
| `DrmFirmware.Share` | mb/drm_audio_fw/src/main.c:570-606 | a rejected share only clears wav_size, whatever the buffer's sizes; an accepted one appends the user, moves the audio and shifts both sizes by the change in record length |
| `DrmFirmware.DigitalOutSizes` | mb/drm_audio_fw/src/main.c:750-757 | both sizes lose md_size; a locked song longer than the preview is capped at PREVIEW_SZ and file_size drops by as much |
| `DrmFirmware.DigitalOutKeepsHeader` | mb/drm_audio_fw/src/main.c:750-757 | file_size − wav_size is the same before and after, in u32 arithmetic |
| `DrmFirmware.OpenHeader` | mb/drm_audio_fw/src/main.c:266-278 | read_header checks the header tag over bytes 12..60 with aad `wave_header` |
| `DrmFirmware.OpenMetadata` | mb/drm_audio_fw/src/main.c:293-305 | read_metadata checks the tag over the fixed METADATA_SZ bytes with aad `meta_data\0` |
| `DrmFirmware.OpenChunk` | mb/drm_audio_fw/src/main.c:319-333 | read_chunks checks the tag over chunk_size bytes with the 4-byte chunk number as aad |
| `DrmFirmware.HeaderFailureValue` | mb/drm_audio_fw/src/main.c:771-772 | the `== -1` test holds only for the failure value 0xFFFFFFFF, which a valid header with that metadata_size gives too |
| `DrmFirmware.ChunkFails` | mb/drm_audio_fw/src/main.c:816-833 | one failure flag per planned call |
| `DrmFirmware.ChunkCommandOutcome` | mb/drm_audio_fw/src/main.c:815-840 | a READ_CHUNK command succeeds iff every planned tag matches; it then advances the counter by the full chunks read, toggles the offset and waits for a chunk, and otherwise it stops |
| `DrmFirmware.FailsFollowPlan` | mb/drm_audio_fw/src/main.c:816-833 | failure j is the failing tag check of planned call j |
| `DrmFirmware.BatchFailsAt` | mb/drm_audio_fw/src/main.c:816-833 | when calls before i pass and call i fails, the batch fails at i |
| `DrmFirmware.BatchPasses` | mb/drm_audio_fw/src/main.c:816-833 | when every call up to the remainder passes, no call fails |
| `DrmFirmware.Firmware.constructor` | mb/drm_audio_fw/src/main.c:884-887 | boot: nobody logged in, STOPPED, the channel cleared |
| `DrmFirmware.Firmware.ChangeState` | mb/drm_audio_fw/src/main.c:36-43 | the state is written to both the channel and the internal state |
| `DrmFirmware.Firmware.LoadSongMd` | mb/drm_audio_fw/src/main.c:150-157 | the metadata becomes Load of the song buffer and nothing else changes |
| `DrmFirmware.Firmware.IsLocked` | mb/drm_audio_fw/src/main.c:160-203 | locked iff nobody is logged in or the lock rule holds; the metadata is loaded only when someone is logged in |
| `DrmFirmware.Firmware.Login` | mb/drm_audio_fw/src/main.c:425-467 | logged in already: the channel gets the session's name and PIN back; otherwise the name as strcmp reads it selects the first provisioned user of that name, who logs in when the PIN hash matches, and otherwise both channel fields are cleared |
| `DrmFirmware.Firmware.FindLoginEntry` | mb/drm_audio_fw/src/main.c:431-433 | the login loop's search stops at exactly LoginEntry |
| `DrmFirmware.Firmware.CheckPin` | mb/drm_audio_fw/src/main.c:436-442 | the PIN matches iff the hash of PinMessage (with the stale concatPin bytes) equals StoredHash (with the stale binHash bytes) under strncmp over 32 bytes |
| `DrmFirmware.Firmware.Logout` | mb/drm_audio_fw/src/main.c:471-482 | with a login status, the session ends and the channel's name and PIN are zeroed; otherwise nothing changes |
| `DrmFirmware.Firmware.ShareSong` | mb/drm_audio_fw/src/main.c:570-606 | the new state, channel and buffer are exactly those of the Share function; the buffer bounds are needed only for an accepted share |
| `DrmFirmware.Firmware.Reject` | mb/drm_audio_fw/src/main.c:576-588 | a refused share clears wav_size only |
| `DrmFirmware.Firmware.AddUser` | mb/drm_audio_fw/src/main.c:590-603 | an accepted share matches the Share function |
| `DrmFirmware.Firmware.WriteShared` | mb/drm_audio_fw/src/main.c:596-599 | memmove then memcpy give the SharedSong buffer |
| `DrmFirmware.Firmware.DigitalOut` | mb/drm_audio_fw/src/main.c:748-764 | sizes as DigitalOutSizes under the is_locked answer, and the first wav_size bytes (after any preview cap) become the audio that followed the record |
| `DrmFirmware.Firmware.Dump` | mb/drm_audio_fw/src/main.c:750-761 | the size update and the memmove of the capped wav_size once the lock is known |
| `DrmFirmware.Firmware.ReadHeader` | mb/drm_audio_fw/src/main.c:265-290 | a matching header returns its metadata_size; otherwise STOPPED and 0xFFFFFFFF |
| `DrmFirmware.Firmware.ReadMetadata` | mb/drm_audio_fw/src/main.c:292-316 | on a match the record reaches purdue_md and 0 is returned; otherwise STOPPED, -1 and purdue_md unchanged |
| `DrmFirmware.Firmware.ReadChunk` | mb/drm_audio_fw/src/main.c:318-375 | on a match the metadata is reloaded and 0 returned; otherwise STOPPED and -1 |
| `DrmFirmware.Firmware.StartPlay` | mb/drm_audio_fw/src/main.c:766-789 | playback starts iff the header opens and its metadata_size is not 0xFFFFFFFF; then metadata_size reaches the channel and chunks_to_read, chunk_remainder are wav_size div and mod 16000; a header that fails stops the firmware, and one that opens with metadata_size 0xFFFFFFFF leaves it WAITING_METADATA with the channel's metadata_size unwritten |
| `DrmFirmware.Firmware.ReadMetadataCommand` | mb/drm_audio_fw/src/main.c:805-814 | on a valid record total_chunks, chunk_size and chunk_remainder reach the channel and it waits for chunks; otherwise it stops |
| `DrmFirmware.Firmware.ReadChunkCommand` | mb/drm_audio_fw/src/main.c:815-840 | the command's state, channel, counter and offset are exactly those of ChunkCommand |
| `DrmFirmware.Firmware.ReadBatch` | mb/drm_audio_fw/src/main.c:816-833 | the loop stops at the first failing call or after the remainder, as ChunkFails says |
| `DrmFirmware.Firmware.ReadCall` | mb/drm_audio_fw/src/main.c:817-829 | call i passes iff its tag matches, reloading the metadata, and otherwise stops |
| `HostInput.SkipSpace` | miPod/src/main.cpp:58 | the sentry skips exactly the white space before the next word |
| `HostInput.WordEnd` | miPod/src/main.cpp:58 | a word ends at the first white space or at the end |
| `HostInput.WordsAreWords` | miPod/src/main.cpp:47-70 | every word is non-empty and holds no white space |
| `HostInput.NoWordsLeft` | miPod/src/main.cpp:47-70 | no word is left exactly when only white space is left |
| `HostInput.ExtractStep` | miPod/src/main.cpp:56-59 | one `>>` takes the next word and stays good only when white space follows it |
| `HostInput.ReadKeeps` | miPod/src/main.cpp:56-59 | a read while good adds the word it found to the words read so far |
| `HostInput.TooManyAt` | miPod/src/main.cpp:56-62 | a stream still good after three words has too many parameters |
| `HostInput.AllReadAt` | miPod/src/main.cpp:56-68 | a stream that stopped has yielded all its words |
| `HostInput.ParseInput` | miPod/src/main.cpp:47-70 | on at most three words (no white space after a third) cmd, arg1, arg2 become the words in order, "" where missing; otherwise all three are left unchanged; mb/miPod/src/main.cpp lines 43-68 hold the same loop |
| `HostLogin.FindFirstNotOf` | miPod/src/main.cpp:246-254 | npos iff every character is in the class; otherwise the first index outside it |
| `HostLogin.MiPodCheck` | miPod/src/main.cpp:240-256 | rejected for length iff a field is empty, the name exceeds 16 or the PIN 8; accepted iff also the name is in [A-Za-z0-9_] and the PIN in [0-9] |
| `HostLogin.MbCheck` | mb/miPod/src/main.cpp:217-231 | rejected for length iff a field is empty, the name exceeds 8 or the PIN 10; accepted iff both are in [A-Za-z0-9_] |
| `HostLogin.MiPodStricterOnPins` | mb/miPod/src/main.cpp:226-227 | a PIN miPod accepts the older host accepts, and "pin_0" shows the converse fails |
| `HostLogin.StrNCopyReadsBack` | miPod/src/main.cpp:257-258 | a NUL-free string of at most n characters reads back from its strncpy buffer unchanged |
| `HostLogin.CopyIntoReadsBack` | mb/miPod/src/main.cpp:234-235 | a string copied with std::string::copy reads back as itself iff it fills the buffer or a NUL already follows it |
| `HostLogin.MbPinTruncated` | mb/miPod/src/main.cpp:217-235 | an accepted 9- or 10-character PIN reaches the 8-byte buffer cut short |
| `HostChannel.SlotWriteSlots` | miPod/src/main.cpp:143 | bytes that fit a slot replace its start and leave every other slot as it was |
| `HostChannel.FullSectionFillsSlot` | miPod/src/main.cpp:136-146 | a full-size read fills its slot with exactly the file's next 16028 bytes |
| `HostChannel.Channel.constructor` | miPod/src/miPodCpp.h:130-158 | a channel with the given name and PIN buffers and nothing sent |
| `HostChannel.Channel.MiPodLogin` | miPod/src/main.cpp:237-262 | on acceptance the name and PIN are strncpy'd and LOGIN is sent; a rejection writes and sends nothing |
| `HostChannel.Channel.MbLogin` | mb/miPod/src/main.cpp:214-237 | on acceptance both are copied with std::string::copy over the old buffers and LOGIN is sent; no rejection writes or sends anything |
| `HostChannel.Channel.ReadEncChunk` | miPod/src/main.cpp:136-146 | slot buffer_loc receives the 28 + chunk_size bytes read, stale bytes past the end of the file, and the cursor advances |
| `HostChannel.Channel.MbReadEncChunk` | mb/miPod/src/main.cpp:164-179 | the same copy, then READ_CHUNK is sent once |
| `HostChannel.MiPodLoginReadsBack` | miPod/src/main.cpp:257-258 | an accepted login's name and PIN read back from the channel as given |
| `HostPlayback.SectionSizes` | miPod/src/main.cpp:123-137 | sections are 28 + metadata_size and 28 + chunk_size, as the decoder reads them, and at full size they are encryptedMetadata and encryptedSongChunk |
| `HostPlayback.BufferLocInHalf` | miPod/src/main.cpp:427-437 | for i < 30 and offset 0 or 1, buffer_loc lies in [0, 60), in the offset's half, and distinct pairs give distinct slots |
| `HostPlayback.HalvesCoverBuffer` | miPod/src/main.cpp:426-439 | the two halves together are the 60 slots, each once |
| `HostPlayback.LastChunks` | miPod/src/main.cpp:453 | last_chunks lies in [1, 30] and leaves whole 30-chunk batches before it |
| `HostPlayback.LastChunksUnique` | miPod/src/main.cpp:453 | no other count in [1, 30] does |
| `HostPlayback.LastBatchShape` | miPod/src/main.cpp:453-465 | the last batch reads the half `!buffer_offset` names from its start; only its final write is chunk_remainder long |
| `HostPlayback.LastBatchInBuffer` | miPod/src/main.cpp:453-465 | with a remainder of at most a chunk every last-batch write stays inside songBuffer |
| `HostPlayback.DoutLengthCases` | mb/miPod/src/main.cpp:477 | length is file_size + 8, negative past the int range, and wrapped past 2^32 |
| `HostPlayback.WriteDout` | mb/miPod/src/main.cpp:477-495 | without a write error the output is exactly the first file_size + 8 bytes (none when that length is negative as an int); after one it is a strict prefix of them |
| `HostShare.SpliceFields` | miPod/src/main.cpp:547-566 | the splice puts the new section at 76..494 and keeps every other byte |
| `HostShare.SpliceAlgebra` | miPod/src/main.cpp:547-566 | splicing in the file's own section is the identity, and a second splice overrides the first |
| `HostShare.SpliceReplacesMetadataSection` | miPod/src/main.cpp:500-566 | on a container with a 418-byte metadata section the request is that section and the splice replaces exactly it |
| `HostShare.ShareEncSong` | miPod/src/main.cpp:479-566 | nothing for an empty user name, nothing when the firmware rejects, otherwise old[0..76) ‖ new 418 bytes ‖ old[494..) |
| `HostShare.ShareUsername` | miPod/src/main.cpp:514 | at most 16 characters of the name over the old buffer, with no terminator added |

## Left out

- The AEAD, Poly1305 and SHA-256 are function parameters. The model
  assumes only their lengths: a success returns the input less its 16-byte
  tag, and a run returns a 16-byte tag. `Aead.Inverts` (open undoes seal)
  is assumed only by the encoder round trips.
- All I/O is left out: files, `mmap`, `devmem`, prompts, `print_help` and
  the `query_*` output. Reads become slices of a byte sequence; writes
  become an appended sequence or a list of writes.
- Concurrency is left out: `decryption_thread`, `read_enc_chunk_thread`,
  the pthread calls and the busy-waits on `drm_state` across the volatile
  channel.
- Hardware is left out: interrupts, DMA, the FIFO polling of `read_chunks`
  (main.c lines 338-367), `play_song`, LEDs, and `main`'s command loop.
  Only the commands modelled here follow from that loop.
- `encryptMetaData` and the re-encryption at the end of `share_enc_song`
  in the firmware are left out. Their behaviour is undefined: they use an
  uninitialised SHA-256 context and an uninitialised buffer, and they write
  the uid into the region list.
- Python's `floor(a / b)` is integer division; for 32-bit sizes it is exact.
- Key loading (the JSON key file, `argparse`) is left out; the key is a
  parameter.
- The channel's union is not modelled as one aliased block.
  - The firmware's encSongBuffer slots are a parameter of the READ_CHUNK
    command.
  - The host's union is an array written by `HostChannel`.
  - Nothing relates the two.
- Bytes C never initialises are parameters: the stale part of
  read_enc_chunk's local buffer, the pad byte of gen_song_md, and the
  `Stack` of login — the 32 bytes of `binHash` that hextobin may leave
  unwritten and the 7 bytes `concatPin[8..15)` that strncpy does not reach
  for an 8-character PIN.
- Preconditions exclude inputs on which the C code has undefined
  behaviour:
  - metadata counts that overflow the local arrays (`Loadable`);
  - an accepted share whose record already lists MAX_USERS users, or whose
    memmove or memcpy would run past the song buffer (`ShareFits`; a
    refused share needs only a loadable record);
  - a dump whose memmove of the capped wav_size would run past the song
    buffer (the `DigitalOut` and `Dump` requires);
  - a share of a file shorter than 494 bytes, or longer than the static
    buffer (`HostShare.ShareEncSong`);
  - a hex string with more digit pairs than the destination holds
    (`DrmHex.HexToBin`).
- `DrmFirmware.StoredHash`: a hashedPin with no NUL in its 65 bytes makes
  hextobin read on into salt and, past 64 hex digits, write beyond the
  32 bytes of binHash (undefined behaviour); the model ends the hex string
  at the array's end, where it holds at most 65 digits and fills binHash.
- The header of `mb/miPod` is not part of this model. For that program the
  model takes the sizes of miPodCpp.h.
- `HostPlayback.WriteDout`: the requires excludes a `write` that reports 0
  bytes written. The loop in the source would then never end.
- `HostChannel.Channel.ReadEncChunk`: the model takes `NONCE_SIZE + MAC_SIZE
  + chunk_size` to be non-negative and within the union, as every caller
  passes it (16000 or a remainder below it).
- The firmware's `read_chunks` checks its tag where the Python decoder
  uses the metadata digest as aad; the firmware uses the 4-byte chunk
  number. Both are modelled as written.
- The firmware opens metadata of the fixed METADATA_SZ bytes, not
  metadata_size. This is modelled as written.
- The firmware's schedule reads chunks 1 to chunks_to_read − 1 in full,
  then chunk chunks_to_read at the remainder's size. This decodes 16000
  bytes less than the song holds (`DrmSchedule.PlaybackReads`). A later
  command at the same counter reads the remainder again
  (`DrmSchedule.RemainderRepeats`). Both are modelled as written.
- `DrmFirmware.Firmware.Login`: the LED and `mb_printf` output are left
  out, and SHA-256 is the parameter `sha`; hash_pin's string building is
  `PinMessage`.
- `DrmFirmware.PinMessage`: when an 8-character PIN is followed by 7 stale
  bytes with no NUL, strlen runs on past concatPin and strncat writes past
  its end (undefined behaviour); the model ends the string at the array's
  end.
- `DrmFirmware.ChannelName`: when the PIN also fills its 8 bytes, strcmp
  reads on into metadata_size; the model ends the string at the PIN's end.
- `DrmTables.DeviceName`: when a 16-character name is followed by a
  hashedPin without a NUL in its 65 bytes, strcmp reads on into salt; the
  model ends the string at the hashedPin's end.
- `DrmTables.NameMatches`: a 16-character region name likewise reads on into
  the next table entry; the region lookups compare the name up to its NUL
  or the end of its array.
- `DrmTables.CharAsU32`: assumes plain `char` is signed; C leaves that
  choice to the implementation.
- The host's `query_enc_song`, `play_encrypted_song` command dispatch and
  `load_file` are I/O around the modelled pieces and are left out.

