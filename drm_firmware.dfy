/**
 * mb/drm_audio_fw/src/main.c, the command functions: the firmware's internal
 * state `s`, the command channel `c` it shares with the host, and the
 * commands that change them.
 */
module DrmFirmware {
  import opened Bytes
  import opened Wrappers
  import CString
  import DrmHex
  import opened DrmTables
  import opened DrmMetadata
  import opened Memory
  import FL = FirmwareLayout
  import UnprotectSong
  import opened DrmSchedule

  /** internal_state s (buffer_offset, total_bytes_to_play and play_state are never read). */
  datatype State = State(
    loggedIn: bool,
    uid: u32,
    username: string,
    pin: string,
    songMd: SongMd,
    purdueMd: seq<byte>,
    drmState: int)

  /**
   * The fields of cmd_channel the modelled commands use. The song fields
   * file_size and wav_size are held here; the bytes from the song's `md`
   * field on are the firmware's `song` array.
   */
  datatype Channel = Channel(
    drmState: int,
    loginStatus: bool,
    username: string,
    pin: string,
    fileSize: u32,
    wavSize: u32,
    metadataSize: u32,
    totalChunks: u32,
    chunkSize: u32,
    chunkRemainder: u32,
    bufferOffset: u32)

  /** `char name[n]` cleared by memset. */
  function Zeros(n: nat): (z: string)
    ensures |z| == n && forall i :: 0 <= i < n ==> z[i] == '\0'
  {
    seq(n, _ => '\0')
  }

  function ZeroBytes(n: nat): (z: seq<byte>)
    ensures |z| == n && forall i :: 0 <= i < n ==> z[i] == 0
  {
    seq(n, _ => 0)
  }

  /** The bytes of the shared buffer from `song.md` on: MAX_SONG_SZ less the 44-byte WAV header. */
  const SONG_AREA := 0x200_0000 - 44

  /** The secrets the lookups rely on: the login loop reads device_users[i] and is_locked reads uids[i] for i < NUM_PROVISIONED_USERS. */
  predicate SecretsFit(sec: Secrets) {
    |sec.provisionedUids| <= 64 && |sec.provisionedUids| <= |sec.users|
    && forall i :: 0 <= i < |sec.users| ==> |sec.users[i].hashedPin| <= 65
  }

  // Login, lines 250-263 and 424-467.

  /**
   * The stack bytes login and hash_pin read before writing them: the
   * entries of binHash that hextobin leaves alone, and concatPin[8..15),
   * which strncpy does not reach for an 8-character PIN.
   */
  datatype Stack = Stack(binHash: seq<byte>, concatPin: string)

  predicate StackSized(z: Stack) {
    |z.binHash| == 32 && |z.concatPin| == 7
  }

  /**
   * The text hash_pin hashes. strncpy copies at most MAX_PIN_SZ characters
   * of the PIN into concatPin and pads a shorter one with NULs; strncat then
   * appends at most SALT_SZ characters of salt at concatPin's first NUL,
   * which for an 8-character PIN lies in the stale bytes after it.
   */
  function PinMessage(pin: string, salt: string, stale: string): string {
    var p := CString.Str(Bytes.Take(pin, 8), '\0');
    (if |p| < 8 then p else p + CString.Str(stale, '\0')) + Bytes.Take(CString.Str(salt, '\0'), 7)
  }

  /**
   * A PIN shorter than its 8-byte buffer is hashed with its salt whatever
   * the stack held; a PIN that fills the buffer is hashed with the string in
   * the stale bytes between it and the salt.
   */
  lemma PinMessageCases(pin: string, salt: string, stale: string, stale2: string)
    requires |pin| == 8
    ensures CString.Length(pin, '\0') < 8 ==>
      PinMessage(pin, salt, stale) == PinMessage(pin, salt, stale2) == CString.Str(pin, '\0') + Bytes.Take(CString.Str(salt, '\0'), 7)
    ensures '\0' !in pin ==>
      PinMessage(pin, salt, stale) == pin + CString.Str(stale, '\0') + Bytes.Take(CString.Str(salt, '\0'), 7)
  {
    assert Bytes.Take(pin, 8) == pin;
    if '\0' !in pin {
      CString.StrOfPlain(pin, '\0');
    }
  }

  /** The 32 bytes of binHash after hextobin: the bytes it writes, then what the stack held. */
  function StoredHash(u: User, stale: seq<byte>): (h: seq<byte>)
    requires |u.hashedPin| <= 65 && |stale| == 32
    ensures |h| == 32
  {
    var packed := DrmHex.Pack(DrmHex.HexDigits(u.hashedPin));
    DigitsFit(u.hashedPin);
    packed + stale[|packed|..]
  }

  /** A hashedPin provisioned as the lower-case hex of 32 bytes yields exactly those bytes, whatever the stack held. */
  lemma StoredHashOfHex(u: User, b: seq<byte>, stale: seq<byte>)
    requires |b| == 32 && u.hashedPin == DrmHex.HexEncode(b) && |stale| == 32
    ensures StoredHash(u, stale) == b
  {
    DrmHex.HexRoundTrip(b);
  }

  lemma DigitsFit(hex: string)
    requires |hex| <= 65
    ensures |DrmHex.HexDigits(hex)| / 2 <= 32
  {
  }

  /** sha256 as a parameter: any function this model is given returns 32 bytes. */
  ghost predicate Sha256Sized(sha: string -> seq<byte>) {
    forall m :: |sha(m)| == 32
  }

  /** strncmp(hashedPin, binHash, 32) == 0. */
  predicate PinAccepted(sha: string -> seq<byte>, u: User, pin: string, z: Stack)
    requires Sha256Sized(sha) && |u.hashedPin| <= 65 && StackSized(z)
  {
    CString.StrnEq(sha(PinMessage(pin, u.salt, z.concatPin)), StoredHash(u, z.binHash), 32, 0)
  }

  /**
   * The string strcmp reads at c->username: the 16 bytes up to a NUL, or,
   * when they hold none, on into c->pin, which follows in the packed channel.
   */
  function ChannelName(ch: Channel): string {
    CString.Str(ch.username + ch.pin, '\0')
  }

  /**
   * A user name that fills all 16 bytes reads as itself followed by the
   * PIN's string. It then names no device user with a shorter name, and a
   * 16-character one only when the PIN's string is the string in that user's
   * hashedPin, which for a 64-digit hash it never is.
   */
  lemma FullChannelName(ch: Channel, u: User)
    requires |ch.username| == 16 && '\0' !in ch.username && |ch.pin| == 8
    ensures ChannelName(ch) == ch.username + CString.Str(ch.pin, '\0')
    ensures NameIs(ChannelName(ch), u) <==>
      CString.Length(u.username, '\0') >= 16 && u.username[..16] == ch.username
      && CString.Str(ch.pin, '\0') == CString.Str(u.hashedPin, '\0')
    ensures CString.Length(u.hashedPin, '\0') > 8 ==> !NameIs(ChannelName(ch), u)
  {
    CString.StrOfConcat(ch.username, ch.pin, '\0');
    CString.StrOfPlain(ChannelName(ch), '\0');
    if CString.Length(u.username, '\0') >= 16 {
      var x, y := u.username[..16], CString.Str(u.hashedPin, '\0');
      var y' := CString.Str(ch.pin, '\0');
      if ch.username + y' == x + y {
        assert ch.username == (x + y)[..16] == x;
        assert y' == (x + y)[16..] == y;
      }
    } else {
      assert |DeviceName(u)| < 16;
    }
  }

  /** Which of the first NUM_PROVISIONED_USERS device users carry that name. */
  function LoginMatches(sec: Secrets, name: string): (m: seq<bool>)
    requires SecretsFit(sec)
    ensures |m| == |sec.provisionedUids|
    ensures forall i :: 0 <= i < |m| ==> (m[i] <==> NameIs(name, sec.users[i]))
  {
    seq(|sec.provisionedUids|, i requires 0 <= i < |sec.provisionedUids| => NameIs(name, sec.users[i]))
  }

  /** The login loop's entry: the first of the provisioned users with that name. */
  function LoginEntry(sec: Secrets, name: string): (r: Option<nat>)
    requires SecretsFit(sec)
    ensures r.Some? ==> r.value < |sec.provisionedUids| && NameIs(name, sec.users[r.value])
    ensures r.Some? ==> forall j :: 0 <= j < r.value ==> !NameIs(name, sec.users[j])
    ensures r.None? ==> forall j :: 0 <= j < |sec.provisionedUids| ==> !NameIs(name, sec.users[j])
  {
    First(LoginMatches(sec, name))
  }

  /** The login succeeds: a provisioned user of that name whose stored hash matches the PIN's. */
  predicate LoginAccepted(sec: Secrets, sha: string -> seq<byte>, name: string, pin: string, z: Stack)
    requires SecretsFit(sec) && Sha256Sized(sha) && StackSized(z)
  {
    LoginEntry(sec, name).Some? && PinAccepted(sha, sec.users[LoginEntry(sec, name).value], pin, z)
  }

  /** A logged-in session belongs to a provisioned user. */
  predicate SessionValid(sec: Secrets, s: State) {
    s.loggedIn ==> s.uid in sec.provisionedUids
  }

  /** is_locked's answer: locked when nobody is logged in, else by the lock rule on the loaded metadata. */
  predicate SongLocked(sec: Secrets, st: State)
    requires SecretsFit(sec) && (st.loggedIn ==> Fits(st.songMd))
  {
    !st.loggedIn || Locked(true, st.uid, st.songMd, |sec.provisionedUids|, sec.provisionedRids)
  }

  // Sharing, lines 570-606.

  /** share_song goes ahead: a logged-in owner sharing with a provisioned user. */
  predicate ShareAllowed(sec: Secrets, st: State, md: SongMd, name: string) {
    st.loggedIn && st.uid == md.ownerId && UidOfName(sec, name, true).0
  }

  /** The metadata with user id u appended: s.song_md.uids[s.song_md.num_users++] = uid. */
  function SharedMd(md: SongMd, u: u8): (r: SongMd)
    requires Fits(md) && md.numUsers < 64
    ensures Fits(r) && r.numUsers == md.numUsers + 1
    ensures r.uids[..r.numUsers] == md.uids[..md.numUsers] + [u]
    ensures r.mdSize == md.mdSize && r.ownerId == md.ownerId && r.numRegions == md.numRegions && r.rids == md.rids
  {
    var r := md.(uids := md.uids[md.numUsers := u], numUsers := md.numUsers + 1);
    assert r.uids[..r.numUsers] == md.uids[..md.numUsers] + [u];
    r
  }

  /** `file_size += shift; wav_size += shift;` in u32 arithmetic. */
  function ShiftSizes(ch: Channel, shift: int): Channel
    requires -0x1_0000_0000 < shift < 0x1_0000_0000
  {
    ch.(fileSize := AddU32(ch.fileSize, shift), wavSize := AddU32(ch.wavSize, shift))
  }

  /**
   * The buffer share_song leaves: the new record over the front and, after
   * it, the buffer as the memmove of the audio left it.
   */
  function SharedSong(a: seq<byte>, g: seq<byte>, w: nat): (r: seq<byte>)
    requires |a| > 0 && |g| <= |a| && (|g| != a[0] ==> |g| + w <= |a| && a[0] + w <= |a|)
    ensures |r| == |a| && r[..|g|] == g
  {
    if |g| == a[0] then g + a[|g|..] else g + Moved(a, |g|, a[0], w)[|g|..]
  }

  /**
   * After a share the audio (wav_size bytes) sits right behind the new
   * record, and loading the buffer gives the new record.
   */
  lemma ShareKeepsSong(prev: SongMd, a: seq<byte>, md: SongMd, pad: byte, w: nat)
    requires Sized(prev) && Fits(md) && Loadable(a) && MdLen(md) + w <= |a| && a[0] + w <= |a|
    ensures SharedSong(a, Gen(md, pad), w)[MdLen(md)..MdLen(md) + w] == a[a[0]..a[0] + w]
    ensures Loadable(SharedSong(a, Gen(md, pad), w))
    ensures Load(prev, SharedSong(a, Gen(md, pad), w)).mdSize == MdLen(md)
    ensures Load(prev, SharedSong(a, Gen(md, pad), w)).ownerId == md.ownerId
    ensures Load(prev, SharedSong(a, Gen(md, pad), w)).numUsers == md.numUsers
    ensures Load(prev, SharedSong(a, Gen(md, pad), w)).uids[..md.numUsers] == md.uids[..md.numUsers]
    ensures Load(prev, SharedSong(a, Gen(md, pad), w)).numRegions == md.numRegions
    ensures Load(prev, SharedSong(a, Gen(md, pad), w)).rids[..md.numRegions] == md.rids[..md.numRegions]
  {
    if MdLen(md) == a[0] {
      LoadGen(prev, md, pad, a[MdLen(md)..]);
    } else {
      MovedRange(a, MdLen(md), a[0], w);
      LoadGen(prev, md, pad, Moved(a, MdLen(md), a[0], w)[MdLen(md)..]);
    }
  }

  /** The length gen_song_md gives the loaded record with one more user. */
  function SharedLen(a: seq<byte>): (n: nat)
    requires |a| >= 4
    ensures forall prev: SongMd, u: u8 :: Sized(prev) && Loadable(a) && a[3] < 64 ==> MdLen(SharedMd(Load(prev, a), u)) == n
  {
    ((6 + a[2] as int + a[3] as int) / 2) * 2
  }

  /**
   * What share_song needs to stay inside its arrays and the song buffer. A
   * refused share only loads the record. An accepted one also appends a user,
   * so the record must list fewer than MAX_USERS; it writes the new record
   * over the front; and when the record's length changes it moves wav_size
   * bytes from md_size to the new length.
   */
  predicate ShareFits(sec: Secrets, st: State, ch: Channel, a: seq<byte>) {
    Sized(st.songMd) && Loadable(a)
    && (ShareAllowed(sec, st, Load(st.songMd, a), ChannelName(ch)) ==>
          a[3] < 64 && SharedLen(a) <= |a|
          && (SharedLen(a) != a[0] ==> a[0] + ch.wavSize <= |a| && SharedLen(a) + ch.wavSize <= |a|))
  }

  /**
   * share_song on values: the state, channel and buffer it leaves. It loads
   * the metadata; a logged-in owner sharing with a provisioned user appends
   * that user, writes the new record, moves the audio behind it and shifts
   * both sizes; any other request only clears wav_size.
   */
  function Share(sec: Secrets, st: State, ch: Channel, a: seq<byte>, pad: byte): (r: (State, Channel, seq<byte>))
    requires ShareFits(sec, st, ch, a)
    ensures |r.2| == |a|
  {
    var md := Load(st.songMd, a);
    if !ShareAllowed(sec, st, md, ChannelName(ch)) then
      (st.(songMd := md), ch.(wavSize := 0), a)
    else
      var shared := SharedMd(md, UidOfName(sec, ChannelName(ch), true).1);
      var g := Gen(shared, pad);
      (st.(songMd := shared), ShiftSizes(ch, |g| - a[0]), SharedSong(a, g, ch.wavSize))
  }

  // Digital out, lines 748-764.

  /**
   * The sizes digital_out leaves (u32 arithmetic): both less md_size, then,
   * for a locked song longer than the preview, wav_size capped at PREVIEW_SZ
   * and file_size reduced by the same amount.
   */
  function DigitalOutSizes(fileSize: u32, wavSize: u32, mdSize: u8, locked: bool): (r: (u32, u32))
    ensures locked && FL.PREVIEW_SZ < AddU32(wavSize, -(mdSize as int)) ==> r.1 == FL.PREVIEW_SZ
    ensures !(locked && FL.PREVIEW_SZ < AddU32(wavSize, -(mdSize as int))) ==> r == (AddU32(fileSize, -(mdSize as int)), AddU32(wavSize, -(mdSize as int)))
    ensures locked ==> r.1 <= FL.PREVIEW_SZ
    ensures r.1 <= AddU32(wavSize, -(mdSize as int))
  {
    var f := AddU32(fileSize, -(mdSize as int));
    var w := AddU32(wavSize, -(mdSize as int));
    if locked && 2880000 < w then (AddU32(f, 2880000 - (w as int)), 2880000) else (f, w)
  }

  /** The answer is_locked gives on the buffer a: it loads the record first when someone is logged in. */
  predicate LockedAfterLoad(sec: Secrets, st: State, a: seq<byte>)
    requires SecretsFit(sec) && Sized(st.songMd) && (st.loggedIn ==> Loadable(a))
  {
    SongLocked(sec, if st.loggedIn then st.(songMd := Load(st.songMd, a)) else st)
  }

  /**
   * Whatever digital_out does to the sizes, file_size - wav_size (the bytes
   * ahead of the audio) is unchanged in u32 arithmetic.
   */
  lemma DigitalOutKeepsHeader(fileSize: u32, wavSize: u32, mdSize: u8, locked: bool)
    ensures (DigitalOutSizes(fileSize, wavSize, mdSize, locked).0 - DigitalOutSizes(fileSize, wavSize, mdSize, locked).1) % 0x1_0000_0000
            == (fileSize - wavSize) % 0x1_0000_0000
  {
    var f := AddU32(fileSize, -(mdSize as int));
    var w := AddU32(wavSize, -(mdSize as int));
    AddU32Wraps(fileSize, -(mdSize as int));
    AddU32Wraps(wavSize, -(mdSize as int));
    WrapDiff(fileSize - mdSize, wavSize - mdSize);
    if locked && 2880000 < w {
      AddU32Wraps(f, 2880000 - (w as int));
      WrapDiff(f + (2880000 - (w as int)), 2880000);
    }
  }


  // Reading an encrypted song, lines 265-378.

  /**
   * br_poly1305_ctmul_run in decrypt mode, as a parameter: from key, nonce,
   * data and AAD it gives the decrypted data and the computed tag.
   */
  type Run = (seq<byte>, seq<byte>, seq<byte>, seq<byte>) -> (seq<byte>, seq<byte>)

  /** The run keeps the data length and yields a MAC_SIZE tag. */
  ghost predicate RunConforms(run: Run) {
    forall k, n, d, a :: |run(k, n, d, a).0| == |d| && |run(k, n, d, a).1| == 16
  }

  /**
   * read_header on an encryptedWaveheader: nonce [0, 12), the 48-byte
   * waveHeaderMetaStruct [12, 60), tag [60, 76), and the 12 bytes of
   * aad "wave_header".
   */
  function OpenHeader(run: Run, key: seq<byte>, enc: seq<byte>): (r: (bool, seq<byte>))
    requires RunConforms(run) && |enc| == 76
    ensures |r.1| == 48
    ensures r.0 <==> run(key, enc[..12], enc[12..60], UnprotectSong.HEADER_AAD).1 == enc[60..76]
  {
    var out := run(key, enc[..12], enc[12..60], UnprotectSong.HEADER_AAD);
    (out.1 == enc[60..76], out.0)
  }

  /** read_metadata on an encryptedMetadata: nonce [0, 12), tag [12, 28), METADATA_SZ bytes [28, 418), aad "meta_data" with its NUL. */
  function OpenMetadata(run: Run, key: seq<byte>, enc: seq<byte>): (r: (bool, seq<byte>))
    requires RunConforms(run) && |enc| == 418
    ensures |r.1| == 390
    ensures r.0 <==> run(key, enc[..12], enc[28..418], UnprotectSong.METADATA_AAD).1 == enc[12..28]
  {
    var out := run(key, enc[..12], enc[28..418], UnprotectSong.METADATA_AAD);
    (out.1 == enc[12..28], out.0)
  }

  /**
   * read_chunks on an encryptedSongChunk: nonce [0, 12), tag [12, 28), the
   * first chunk_size data bytes, and as AAD the four bytes of `int aad = chunk_num`.
   */
  function OpenChunk(run: Run, key: seq<byte>, slot: seq<byte>, chunkSize: nat, chunkNum: i32): (r: (bool, seq<byte>))
    requires RunConforms(run) && |slot| == 16028 && chunkSize <= 16000
    ensures |r.1| == chunkSize
    ensures r.0 <==> run(key, slot[..12], slot[28..28 + chunkSize], U32Bytes(U32OfI32(chunkNum))).1 == slot[12..28]
  {
    var out := run(key, slot[..12], slot[28..28 + chunkSize], U32Bytes(U32OfI32(chunkNum)));
    (out.1 == slot[12..28], out.0)
  }

  /**
   * read_header returns -1 through `unsigned int`; play_encrypted_song stores
   * it in an int and tests `== -1`. The failure value and a validated header
   * whose metadata_size is 0xFFFFFFFF read alike: exactly those two give -1.
   */
  lemma HeaderFailureValue(x: u32)
    ensures I32OfU32(x) == -1 <==> x == 0xFFFF_FFFF
  {
  }

  // The READ_CHUNK command of play_encrypted_song, lines 815-840.

  /** The 60 encSongBuffer slots hold full encryptedSongChunks and the offset names one of the two halves. */
  predicate BatchFits(slots: seq<seq<byte>>, rem: int, offset: int) {
    |slots| == 60 && (forall k :: 0 <= k < 60 ==> |slots[k]| == 16028)
    && 0 <= rem < 16000 && (offset == 0 || offset == 1)
  }

  /** Whether the tag of call j of a batch matches: slot j + 30 * offset, chunk counter + j, full below chunks_to_read. */
  predicate CallPasses(run: Run, key: seq<byte>, slots: seq<seq<byte>>, counter: i32, ctr: i32, rem: int, offset: int, j: int)
    requires RunConforms(run) && BatchFits(slots, rem, offset) && 0 <= j < 30 && counter + j <= ctr
  {
    OpenChunk(run, key, slots[j + 30 * offset], if counter + j < ctr then 16000 else rem, counter + j).0
  }

  /** For each call of the plan, whether its tag check fails. */
  function ChunkFails(run: Run, key: seq<byte>, slots: seq<seq<byte>>, counter: i32, ctr: i32, rem: int, offset: int): (f: seq<bool>)
    requires RunConforms(run) && BatchFits(slots, rem, offset)
    ensures |f| == |Plan(counter, ctr, rem, offset)|
  {
    PlanShape(counter, ctr, rem, offset);
    seq(|Plan(counter, ctr, rem, offset)|, j requires 0 <= j < |Plan(counter, ctr, rem, offset)| =>
      !CallPasses(run, key, slots, counter, ctr, rem, offset, j))
  }

  /** What one READ_CHUNK command ends with: playback over, or the counter and offset for the next command. */
  datatype Batch = Ended | Next(counter: int, offset: int)

  /**
   * One READ_CHUNK command, from the counter, chunks_to_read, the remainder
   * and the offset, over the song bytes a (from which each validated chunk
   * reloads the metadata). A counter past chunks_to_read ends playback with
   * no call. The first failing tag ends it in STOPPED. A clean batch
   * publishes its offset in the channel, toggles it and waits for the next
   * command.
   */
  function ChunkCommand(run: Run, key: seq<byte>, slots: seq<seq<byte>>, st: State, ch: Channel, a: seq<byte>,
                        counter: i32, ctr: i32, rem: int, offset: int): (r: (State, Channel, Batch))
    requires RunConforms(run) && BatchFits(slots, rem, offset) && Sized(st.songMd) && Loadable(a)
  {
    var st1 := st.(drmState := FL.WORKING);
    var ch1 := ch.(drmState := FL.WORKING);
    if counter > ctr then (st1, ch1, Ended)
    else
      var md := Load(st.songMd, a);
      match First(ChunkFails(run, key, slots, counter, ctr, rem, offset))
      case Some(j) =>
        (st1.(drmState := FL.STOPPED, songMd := if j == 0 then st.songMd else md), ch1.(drmState := FL.STOPPED), Ended)
      case None =>
        (st1.(drmState := FL.WAITING_CHUNK, songMd := md), ch1.(drmState := FL.WAITING_CHUNK, bufferOffset := offset),
         Next(NextCounter(counter, ctr), ToggleOffset(offset)))
  }

  /**
   * A clean command moves the counter by the number of full chunks it read,
   * switches to the other half of the slots, and loads the metadata; a
   * failing or exhausted command ends playback.
   */
  lemma ChunkCommandOutcome(run: Run, key: seq<byte>, slots: seq<seq<byte>>, st: State, ch: Channel, a: seq<byte>,
                            counter: i32, ctr: i32, rem: int, offset: int)
    requires RunConforms(run) && BatchFits(slots, rem, offset) && Sized(st.songMd) && Loadable(a)
    ensures var r := ChunkCommand(run, key, slots, st, ch, a, counter, ctr, rem, offset);
      && (r.2.Next? <==> counter <= ctr && forall j :: 0 <= j < |Plan(counter, ctr, rem, offset)| ==>
            OpenChunk(run, key, slots[Plan(counter, ctr, rem, offset)[j].slot], Plan(counter, ctr, rem, offset)[j].size,
                      Plan(counter, ctr, rem, offset)[j].chunkNum).0)
      && (r.2.Next? ==> r.2.counter == counter + Min(30, ctr - counter) && r.2.offset == 1 - offset
                        && r.0.songMd == Load(st.songMd, a) && r.0.drmState == FL.WAITING_CHUNK)
      && (r.2.Ended? && counter <= ctr ==> r.0.drmState == FL.STOPPED && r.1.drmState == FL.STOPPED)
      && r.0.(drmState := st.drmState, songMd := st.songMd) == st
      && r.1.(drmState := ch.drmState, bufferOffset := ch.bufferOffset) == ch
  {
    PlanShape(counter, ctr, rem, offset);
    FailsFollowPlan(run, key, slots, counter, ctr, rem, offset);
    var p := Plan(counter, ctr, rem, offset);
    var f := ChunkFails(run, key, slots, counter, ctr, rem, offset);
    if counter <= ctr && First(f).Some? {
      var j := First(f).value;
      assert !OpenChunk(run, key, slots[p[j].slot], p[j].size, p[j].chunkNum).0;
    }
  }

  /** Entry j of the failures is the failing tag check of call j of the plan. */
  lemma FailsFollowPlan(run: Run, key: seq<byte>, slots: seq<seq<byte>>, counter: i32, ctr: i32, rem: int, offset: int)
    requires RunConforms(run) && BatchFits(slots, rem, offset)
    ensures forall j :: 0 <= j < |Plan(counter, ctr, rem, offset)| ==>
      ChunkFails(run, key, slots, counter, ctr, rem, offset)[j]
      == !OpenChunk(run, key, slots[Plan(counter, ctr, rem, offset)[j].slot], Plan(counter, ctr, rem, offset)[j].size,
                    Plan(counter, ctr, rem, offset)[j].chunkNum).0
  {
    PlanShape(counter, ctr, rem, offset);
  }

  /** Calls before i passed and call i fails: the batch fails at i. */
  lemma BatchFailsAt(run: Run, key: seq<byte>, slots: seq<seq<byte>>, counter0: i32, ctr: i32, rem: int, offset: int, i: int)
    requires RunConforms(run) && BatchFits(slots, rem, offset)
    requires 0 <= i < 30 && counter0 + i <= ctr
    requires forall j :: 0 <= j < i ==> CallPasses(run, key, slots, counter0, ctr, rem, offset, j)
    requires !CallPasses(run, key, slots, counter0, ctr, rem, offset, i)
    ensures First(ChunkFails(run, key, slots, counter0, ctr, rem, offset)) == Some(i)
  {
    PlanShape(counter0, ctr, rem, offset);
    FirstAt(ChunkFails(run, key, slots, counter0, ctr, rem, offset), i);
  }

  /** The calls of a batch up to the remainder, or all 30 when it has no room for it, passed: no call fails. */
  lemma BatchPasses(run: Run, key: seq<byte>, slots: seq<seq<byte>>, counter0: i32, ctr: i32, rem: int, offset: int)
    requires RunConforms(run) && BatchFits(slots, rem, offset) && counter0 <= ctr
    requires forall j :: 0 <= j < Min(30, ctr - counter0 + 1) ==> CallPasses(run, key, slots, counter0, ctr, rem, offset, j)
    ensures First(ChunkFails(run, key, slots, counter0, ctr, rem, offset)).None?
  {
    PlanShape(counter0, ctr, rem, offset);
    FirstNone(ChunkFails(run, key, slots, counter0, ctr, rem, offset));
  }

  class Firmware {
    const sec: Secrets
    const song: array<byte>
    var s: State
    var c: Channel

    ghost predicate Valid()
      reads this
    {
      SecretsFit(sec) && SessionValid(sec, s) && song.Length == SONG_AREA
      && Sized(s.songMd) && |s.username| == 16 && |s.pin| == 8
      && |c.username| == 16 && |c.pin| == 8
    }

    /** The boot state: `s` zero-initialised and the channel cleared by memset, then set_stopped(). */
    constructor(secrets: Secrets)
      requires SecretsFit(secrets)
      ensures Valid() && sec == secrets && fresh(song)
      ensures !s.loggedIn && s.drmState == FL.STOPPED && !c.loginStatus
      ensures forall i :: 0 <= i < song.Length ==> song[i] == 0
    {
      sec := secrets;
      song := new byte[SONG_AREA](_ => 0);
      s := State(false, 0, Zeros(16), Zeros(8), SongMd(0, 0, 0, ZeroBytes(32), 0, ZeroBytes(64)), ZeroBytes(390), FL.STOPPED);
      c := Channel(FL.STOPPED, false, Zeros(16), Zeros(8), 0, 0, 0, 0, 0, 0, 0);
    }

    /** change_state: the state is written to both `c` and `s`. */
    method ChangeState(st: int)
      modifies this
      ensures s == old(s).(drmState := st) && c == old(c).(drmState := st)
    {
      s := s.(drmState := st);
      c := c.(drmState := st);
    }

    /** load_song_md, lines 149-157. */
    method LoadSongMd()
      requires Valid() && Loadable(song[..])
      modifies this
      ensures Valid()
      ensures s == old(s).(songMd := Load(old(s.songMd), song[..])) && c == old(c)
    {
      s := s.(songMd := Load(s.songMd, song[..]));
    }

    /** is_locked, lines 160-203: loads the metadata only when a user is logged in. */
    method IsLocked() returns (locked: bool)
      requires Valid() && (s.loggedIn ==> Loadable(song[..]))
      modifies this
      ensures Valid() && c == old(c)
      ensures s == old(s).(songMd := if old(s.loggedIn) then Load(old(s.songMd), song[..]) else old(s.songMd))
      ensures s.loggedIn ==> Fits(s.songMd)
      ensures locked == SongLocked(sec, s)
    {
      locked := true;
      if s.loggedIn {
        LoadSongMd();
        var authorized := CheckUser(s.uid, s.songMd, |sec.provisionedUids|);
        if !authorized {
          return true;
        }
        var matched := CheckRegion(s.songMd, sec.provisionedRids);
        locked := !matched;
      }
    }

    /** login, lines 424-467, with z the stack bytes it reads uninitialised. */
    method Login(sha: string -> seq<byte>, z: Stack)
      requires Valid() && Sha256Sized(sha) && StackSized(z)
      modifies this
      ensures Valid()
      ensures old(s.loggedIn) ==> s == old(s) && c == old(c).(username := old(s.username), pin := old(s.pin))
      ensures !old(s.loggedIn) && LoginAccepted(sec, sha, ChannelName(old(c)), old(c.pin), z) ==>
        s == old(s).(loggedIn := true, username := old(c.username), pin := old(c.pin),
                     uid := sec.provisionedUids[LoginEntry(sec, ChannelName(old(c))).value])
        && c == old(c).(loginStatus := true)
      ensures !old(s.loggedIn) && !LoginAccepted(sec, sha, ChannelName(old(c)), old(c.pin), z) ==>
        s == old(s) && c == old(c).(username := Zeros(16), pin := Zeros(8))
    {
      if s.loggedIn {
        c := c.(username := s.username, pin := s.pin);
        return;
      }
      var name := ChannelName(c);
      var entry := FindLoginEntry(sec, name);
      if entry.None? {
        c := c.(username := Zeros(16), pin := Zeros(8));
        return;
      }
      var ok := CheckPin(sha, sec.users[entry.value], c.pin, z);
      if ok {
        s := s.(loggedIn := true, username := c.username, pin := c.pin, uid := sec.provisionedUids[entry.value]);
        c := c.(loginStatus := true);
      } else {
        c := c.(username := Zeros(16), pin := Zeros(8));
      }
    }

    /** The search of login's loop: the first provisioned user whose name strcmp finds equal. */
    static method FindLoginEntry(sec: Secrets, name: string) returns (r: Option<nat>)
      requires SecretsFit(sec)
      ensures r == LoginEntry(sec, name)
    {
      ghost var m := LoginMatches(sec, name);
      for i := 0 to |sec.provisionedUids|
        invariant forall j :: 0 <= j < i ==> !m[j]
      {
        if CString.Str(name, '\0') == DeviceName(sec.users[i]) {
          FirstAt(m, i);
          return Some(i);
        }
      }
      FirstNone(m);
      return None;
    }

    /** The PIN check of login: hextobin of the stored hash, hash_pin, strncmp over 32 bytes. */
    static method CheckPin(sha: string -> seq<byte>, u: User, pin: string, z: Stack) returns (ok: bool)
      requires Sha256Sized(sha) && |u.hashedPin| <= 65 && StackSized(z)
      ensures ok == PinAccepted(sha, u, pin, z)
    {
      var binHash := new byte[32](i requires 0 <= i < 32 => z.binHash[i]);
      DigitsFit(u.hashedPin);
      var n := DrmHex.HexToBin(binHash, u.hashedPin);
      assert binHash[..] == binHash[..n] + binHash[n..];
      var hashed := sha(PinMessage(pin, u.salt, z.concatPin));
      ok := CString.Str(hashed[..32], 0) == CString.Str(binHash[..32], 0);
      assert binHash[..] == StoredHash(u, z.binHash);
    }

    /** logout, lines 470-482: acts on the channel's login status. */
    method Logout()
      requires Valid()
      modifies this
      ensures Valid()
      ensures old(c.loginStatus) ==> s == old(s).(loggedIn := false, uid := 0)
      ensures old(c.loginStatus) ==> c == old(c).(loginStatus := false, username := Zeros(16), pin := Zeros(8))
      ensures !old(c.loginStatus) ==> s == old(s) && c == old(c)
    {
      if c.loginStatus {
        s := s.(loggedIn := false, uid := 0);
        c := c.(loginStatus := false, username := Zeros(16), pin := Zeros(8));
      }
    }
  
    /** share_song, lines 570-606; pad is the byte of new_md gen_song_md leaves unwritten. */
    method ShareSong(pad: byte)
      requires Valid() && ShareFits(sec, s, c, song[..])
      modifies this, song
      ensures Valid()
      ensures s == Share(sec, old(s), old(c), old(song[..]), pad).0
      ensures c == Share(sec, old(s), old(c), old(song[..]), pad).1
      ensures song[..] == Share(sec, old(s), old(c), old(song[..]), pad).2
    {
      LoadSongMd();
      if !s.loggedIn || s.uid != s.songMd.ownerId {
        Reject(pad, old(s), old(c), old(song[..]));
        return;
      }
      var found, uid := UsernameToUid(sec, ChannelName(c), true);
      if !found {
        Reject(pad, old(s), old(c), old(song[..]));
        return;
      }
      AddUser(uid, pad, old(s), old(c), old(song[..]));
    }

    /** A refused share, from the state s0, c0, a with the record of a loaded: wav_size is cleared. */
    method Reject(ghost pad: byte, ghost s0: State, ghost c0: Channel, ghost a: seq<byte>)
      requires ShareFits(sec, s0, c0, a) && !ShareAllowed(sec, s0, Load(s0.songMd, a), ChannelName(c0))
      requires Valid() && s == s0.(songMd := Load(s0.songMd, a)) && c == c0 && song[..] == a
      modifies this
      ensures Valid()
      ensures s == Share(sec, s0, c0, a, pad).0
      ensures c == Share(sec, s0, c0, a, pad).1
      ensures song[..] == Share(sec, s0, c0, a, pad).2
    {
      c := c.(wavSize := 0);
    }

    /**
     * An accepted share, from the state s0, c0, a with the record of a
     * loaded and u the id of the user shared with: append the user, move the
     * audio behind the new record, write the record, shift both sizes.
     */
    method AddUser(u: u8, pad: byte, ghost s0: State, ghost c0: Channel, ghost a: seq<byte>)
      requires ShareFits(sec, s0, c0, a) && ShareAllowed(sec, s0, Load(s0.songMd, a), ChannelName(c0))
      requires u == UidOfName(sec, ChannelName(c0), true).1
      requires Valid() && s == s0.(songMd := Load(s0.songMd, a)) && c == c0 && song[..] == a
      modifies this, song
      ensures Valid()
      ensures s == Share(sec, s0, c0, a, pad).0
      ensures c == Share(sec, s0, c0, a, pad).1
      ensures song[..] == Share(sec, s0, c0, a, pad).2
    {
      var mdSize := song[0];
      assert mdSize == a[0];
      var st, ch := s, c;
      var md := SharedMd(st.songMd, u);
      var newMd := Gen(md, pad);
      ghost var r := Share(sec, s0, c0, a, pad);
      assert r == (st.(songMd := md), ShiftSizes(ch, |newMd| - mdSize), SharedSong(a, newMd, ch.wavSize));
      WriteShared(newMd, ch.wavSize);
      s := st.(songMd := md);
      c := ShiftSizes(ch, |newMd| - mdSize);
    }

    /**
     * memmove(song + |g|, song + md_size, w), then memcpy(song, g, |g|):
     * the audio moved behind the new record g, and g over the front.
     */
    method WriteShared(g: seq<byte>, w: nat)
      requires 0 < song.Length && |g| <= song.Length
      requires |g| != song[0] ==> |g| + w <= song.Length && song[0] + w <= song.Length
      modifies song
      ensures song[..] == SharedSong(old(song[..]), g, w)
    {
      var mdSize := song[0];
      ghost var a := song[..];
      if |g| != mdSize {
        Memmove(song, |g|, mdSize, w);
        assert song[..] == Moved(a, |g|, mdSize, w);
      }
      CopyIn(song, g);
    }

    /** digital_out, lines 748-764: strips the metadata and moves the audio to the front of the buffer. */
    method DigitalOut()
      requires Valid() && (s.loggedIn ==> Loadable(song[..]))
      requires song[0] + DigitalOutSizes(c.fileSize, c.wavSize, song[0], LockedAfterLoad(sec, s, song[..])).1 <= song.Length
      modifies this, song
      ensures Valid()
      ensures s == old(s).(songMd := if old(s.loggedIn) then Load(old(s.songMd), old(song[..])) else old(s.songMd))
      ensures (c.fileSize, c.wavSize) == DigitalOutSizes(old(c.fileSize), old(c.wavSize), old(song[0]), SongLocked(sec, s))
      ensures c == old(c).(fileSize := c.fileSize, wavSize := c.wavSize)
      ensures song[..] == Moved(old(song[..]), 0, old(song[0]), c.wavSize)
      ensures song[..c.wavSize] == old(song[..])[old(song[0])..old(song[0]) + c.wavSize]
    {
      var md := song[0];
      var locked := IsLocked();
      Dump(md, locked);
    }

    /** The rest of digital_out once is_locked has answered: the size update and the memmove. */
    method Dump(md: u8, locked: bool)
      requires Valid() && md == song[0] && md + DigitalOutSizes(c.fileSize, c.wavSize, md, locked).1 <= song.Length
      modifies this, song
      ensures Valid() && s == old(s)
      ensures (c.fileSize, c.wavSize) == DigitalOutSizes(old(c.fileSize), old(c.wavSize), md, locked)
      ensures c == old(c).(fileSize := c.fileSize, wavSize := c.wavSize)
      ensures song[..] == Moved(old(song[..]), 0, md, c.wavSize)
      ensures song[..c.wavSize] == old(song[..])[md..md + c.wavSize]
    {
      ghost var before := song[..];
      var sizes := DigitalOutSizes(c.fileSize, c.wavSize, md, locked);
      c := c.(fileSize := sizes.0, wavSize := sizes.1);
      Memmove(song, 0, md, c.wavSize);
      MovedRange(before, 0, md, c.wavSize);
    }

    /** read_header, lines 265-290: returns metadata_size, or 0xFFFFFFFF (-1) when the tag does not match. */
    method ReadHeader(key: seq<byte>, enc: seq<byte>, run: Run) returns (metadataSize: u32, header: seq<byte>)
      requires Valid() && RunConforms(run) && |enc| == 76
      modifies this
      ensures Valid() && header == OpenHeader(run, key, enc).1
      ensures OpenHeader(run, key, enc).0 ==>
        metadataSize == LittleEndian32(header[44..48])
        && s == old(s).(drmState := FL.WAITING_METADATA) && c == old(c).(drmState := FL.WAITING_METADATA)
      ensures !OpenHeader(run, key, enc).0 ==>
        metadataSize == 0xFFFF_FFFF && s == old(s).(drmState := FL.STOPPED) && c == old(c).(drmState := FL.STOPPED)
    {
      ChangeState(FL.WORKING);
      var out := run(key, enc[..12], enc[12..60], UnprotectSong.HEADER_AAD);
      header := out.0;
      if out.1 == enc[60..76] {
        ChangeState(FL.WAITING_METADATA);
        metadataSize := LittleEndian32(header[44..48]);
      } else {
        ChangeState(FL.STOPPED);
        metadataSize := 0xFFFF_FFFF;
      }
    }

    /** read_metadata, lines 292-316: the decrypted record reaches s.purdue_md only when the tag matches. */
    method ReadMetadata(key: seq<byte>, enc: seq<byte>, run: Run) returns (r: int)
      requires Valid() && RunConforms(run) && |enc| == 418
      modifies this
      ensures Valid()
      ensures OpenMetadata(run, key, enc).0 ==>
        r == 0 && s == old(s).(purdueMd := OpenMetadata(run, key, enc).1) && c == old(c)
      ensures !OpenMetadata(run, key, enc).0 ==>
        r == -1 && s == old(s).(drmState := FL.STOPPED) && c == old(c).(drmState := FL.STOPPED)
    {
      var out := run(key, enc[..12], enc[28..418], UnprotectSong.METADATA_AAD);
      if out.1 == enc[12..28] {
        s := s.(purdueMd := out.0);
        r := 0;
      } else {
        ChangeState(FL.STOPPED);
        r := -1;
      }
    }

    /** read_chunks up to its tag check, lines 318-337 and 368-375: a matching chunk reloads the song metadata. */
    method ReadChunk(key: seq<byte>, chunkSize: nat, chunkNum: i32, slot: seq<byte>, run: Run) returns (r: int)
      requires Valid() && RunConforms(run) && |slot| == 16028 && chunkSize <= 16000
      requires OpenChunk(run, key, slot, chunkSize, chunkNum).0 ==> Loadable(song[..])
      modifies this
      ensures Valid()
      ensures OpenChunk(run, key, slot, chunkSize, chunkNum).0 ==>
        r == 0 && s == old(s).(songMd := Load(old(s.songMd), song[..])) && c == old(c)
      ensures !OpenChunk(run, key, slot, chunkSize, chunkNum).0 ==>
        r == -1 && s == old(s).(drmState := FL.STOPPED) && c == old(c).(drmState := FL.STOPPED)
    {
      var out := run(key, slot[..12], slot[28..28 + chunkSize], U32Bytes(U32OfI32(chunkNum)));
      if out.1 == slot[12..28] {
        LoadSongMd();
        r := 0;
      } else {
        ChangeState(FL.STOPPED);
        r := -1;
      }
    }

    /**
     * The start of play_encrypted_song, lines 766-789: read_header, the `== -1`
     * test on its result, metadata_size into the channel, and the chunk count
     * and remainder of the header's wav_size.
     */
    method StartPlay(key: seq<byte>, enc: seq<byte>, run: Run) returns (started: bool, ctr: i32, rem: u32)
      requires Valid() && RunConforms(run) && |enc| == 76
      modifies this
      ensures Valid()
      ensures started <==> OpenHeader(run, key, enc).0 && LittleEndian32(OpenHeader(run, key, enc).1[44..48]) != 0xFFFF_FFFF
      ensures started ==>
        && (ctr as int, rem as int) == UnprotectSong.ChunkCounts(LittleEndian32(OpenHeader(run, key, enc).1[40..44]))
        && s == old(s).(drmState := FL.WAITING_METADATA)
        && c == old(c).(drmState := FL.WAITING_METADATA, metadataSize := LittleEndian32(OpenHeader(run, key, enc).1[44..48]))
      ensures !OpenHeader(run, key, enc).0 ==> s == old(s).(drmState := FL.STOPPED) && c == old(c).(drmState := FL.STOPPED)
      ensures OpenHeader(run, key, enc).0 && !started ==>
        s == old(s).(drmState := FL.WAITING_METADATA) && c == old(c).(drmState := FL.WAITING_METADATA)
    {
      var metadataSize, header := ReadHeader(key, enc, run);
      HeaderFailureValue(metadataSize);
      if I32OfU32(metadataSize) == -1 {
        return false, 0, 0;
      }
      c := c.(metadataSize := metadataSize);
      ChangeState(FL.WAITING_METADATA);
      var wavSize := LittleEndian32(header[40..44]);
      started, ctr, rem := true, wavSize / 16000, wavSize % 16000;
    }

    /** The READ_METADATA command, lines 805-814: on a valid record the chunk plan goes to the channel. */
    method ReadMetadataCommand(key: seq<byte>, enc: seq<byte>, run: Run, ctr: i32, rem: u32) returns (ok: bool)
      requires Valid() && RunConforms(run) && |enc| == 418
      modifies this
      ensures Valid()
      ensures ok == OpenMetadata(run, key, enc).0
      ensures ok ==>
        && s == old(s).(purdueMd := OpenMetadata(run, key, enc).1, drmState := FL.WAITING_CHUNK)
        && c == old(c).(drmState := FL.WAITING_CHUNK, totalChunks := U32OfI32(ctr), chunkSize := 16000, chunkRemainder := rem)
      ensures !ok ==> s == old(s).(drmState := FL.STOPPED) && c == old(c).(drmState := FL.STOPPED)
    {
      ChangeState(FL.WORKING);
      var r := ReadMetadata(key, enc, run);
      ok := r == 0;
      if ok {
        c := c.(totalChunks := U32OfI32(ctr), chunkSize := 16000, chunkRemainder := rem);
        ChangeState(FL.WAITING_CHUNK);
      }
    }

    /**
     * The READ_CHUNK command, lines 815-840, over the 60 slots of encSongBuffer:
     * chunk_counter, chunks_to_read, chunk_remainder and buffer_offset are the
     * locals of play_encrypted_song it reads and updates.
     */
    method ReadChunkCommand(key: seq<byte>, run: Run, slots: seq<seq<byte>>, counter0: i32, ctr: i32, rem: int, offset: int)
      returns (batch: Batch)
      requires Valid() && RunConforms(run) && BatchFits(slots, rem, offset) && Loadable(song[..])
      modifies this
      ensures Valid()
      ensures s == ChunkCommand(run, key, slots, old(s), old(c), song[..], counter0, ctr, rem, offset).0
      ensures c == ChunkCommand(run, key, slots, old(s), old(c), song[..], counter0, ctr, rem, offset).1
      ensures batch == ChunkCommand(run, key, slots, old(s), old(c), song[..], counter0, ctr, rem, offset).2
    {
      ChangeState(FL.WORKING);
      if counter0 > ctr {
        return Ended;
      }
      var ok, counter, i := ReadBatch(key, run, slots, counter0, ctr, rem, offset);
      if !ok {
        BatchFailsAt(run, key, slots, counter0, ctr, rem, offset, i);
        return Ended;
      }
      BatchPasses(run, key, slots, counter0, ctr, rem, offset);
      c := c.(bufferOffset := offset);
      batch := Next(counter, ToggleOffset(offset));
      ChangeState(FL.WAITING_CHUNK);
    }

    /**
     * The `for` loop of READ_CHUNK: up to 30 read_chunks calls, stopping at the
     * first failing tag, call i, or after the remainder.
     */
    method ReadBatch(key: seq<byte>, run: Run, slots: seq<seq<byte>>, counter0: i32, ctr: i32, rem: int, offset: int)
      returns (ok: bool, counter: i32, i: int)
      requires Valid() && RunConforms(run) && BatchFits(slots, rem, offset) && Loadable(song[..]) && counter0 <= ctr
      modifies this
      ensures Valid()
      ensures ok ==>
        && (forall j :: 0 <= j < Min(30, ctr - counter0 + 1) ==> CallPasses(run, key, slots, counter0, ctr, rem, offset, j))
        && counter == NextCounter(counter0, ctr) && s == old(s).(songMd := Load(old(s.songMd), song[..])) && c == old(c)
      ensures !ok ==>
        && 0 <= i < 30 && counter0 + i <= ctr
        && (forall j :: 0 <= j < i ==> CallPasses(run, key, slots, counter0, ctr, rem, offset, j))
        && !CallPasses(run, key, slots, counter0, ctr, rem, offset, i)
        && s == old(s).(drmState := FL.STOPPED, songMd := if i == 0 then old(s.songMd) else Load(old(s.songMd), song[..]))
        && c == old(c).(drmState := FL.STOPPED)
    {
      ghost var md := Load(old(s.songMd), song[..]);
      counter := counter0;
      i := 0;
      while i < 30
        invariant 0 <= i <= 30 && counter == counter0 + i <= ctr
        invariant forall j :: 0 <= j < i ==> CallPasses(run, key, slots, counter0, ctr, rem, offset, j)
        invariant Valid()
        invariant s == old(s).(songMd := if i == 0 then old(s.songMd) else md)
        invariant c == old(c)
      {
        var r := ReadCall(key, run, slots, counter0, ctr, rem, offset, i);
        if r != 0 {
          return false, counter, i;
        }
        LoadTwice(old(s.songMd), song[..]);
        if counter == ctr {
          return true, counter, i;
        }
        counter := counter + 1;
        i := i + 1;
      }
      ok := true;
    }

    /** Call i of the loop: read_chunks on slot i + 30 * buffer_offset for chunk counter0 + i. */
    method ReadCall(key: seq<byte>, run: Run, slots: seq<seq<byte>>, counter0: i32, ctr: i32, rem: int, offset: int, i: int)
      returns (r: int)
      requires Valid() && RunConforms(run) && BatchFits(slots, rem, offset) && Loadable(song[..])
      requires 0 <= i < 30 && counter0 + i <= ctr
      modifies this
      ensures Valid()
      ensures r == 0 <==> CallPasses(run, key, slots, counter0, ctr, rem, offset, i)
      ensures r == 0 ==> s == old(s).(songMd := Load(old(s.songMd), song[..])) && c == old(c)
      ensures r != 0 ==> s == old(s).(drmState := FL.STOPPED) && c == old(c).(drmState := FL.STOPPED)
    {
      var counter := counter0 + i;
      var size := if counter < ctr then 16000 else rem;
      r := ReadChunk(key, size, counter, slots[i + 30 * offset], run);
    }
  }
}
