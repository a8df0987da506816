/**
 * mb/drm_audio_fw/src/main.c, lines 149-218: the DRM metadata record at the
 * head of a song (`drm_md`), the firmware's local copy of it (`song_md`),
 * the record written back when a song is shared, and the lock rule.
 */
module DrmMetadata {
  import opened Bytes

  /**
   * song_md. rids has MAX_REGIONS (32) entries and uids MAX_USERS (64); only
   * the first numRegions and numUsers are meaningful, the rest keep whatever
   * an earlier load left there.
   */
  datatype SongMd = SongMd(mdSize: u8, ownerId: u8, numRegions: u8, rids: seq<u8>, numUsers: u8, uids: seq<u8>)

  predicate Sized(md: SongMd) {
    |md.rids| == 32 && |md.uids| == 64
  }

  /** The counts fit the local arrays: md.numRegions <= MAX_REGIONS and md.numUsers <= MAX_USERS. */
  predicate Fits(md: SongMd) {
    Sized(md) && md.numRegions <= 32 && md.numUsers <= 64
  }

  /**
   * A `drm_md` record that load_song_md can copy: its counts fit the local
   * arrays (the copy does not check them) and its lists lie in the buffer.
   */
  predicate Loadable(b: seq<byte>) {
    |b| >= 4 && b[2] <= 32 && b[3] <= 64 && 4 + b[2] + b[3] <= |b|
  }

  /**
   * load_song_md: the four header bytes, then num_regions region ids and
   * num_users user ids copied over the front of the local arrays.
   */
  function Load(prev: SongMd, b: seq<byte>): (md: SongMd)
    requires Sized(prev) && Loadable(b)
    ensures Fits(md)
  {
    SongMd(b[0], b[1], b[2], b[4..4 + b[2]] + prev.rids[b[2]..],
           b[3], b[4 + b[2]..4 + b[2] + b[3]] + prev.uids[b[3]..])
  }

  /** Loading the same record twice gives what one load gives. */
  lemma LoadTwice(prev: SongMd, b: seq<byte>)
    requires Sized(prev) && Loadable(b)
    ensures Load(Load(prev, b), b) == Load(prev, b)
  {
    assert (b[4..4 + b[2]] + prev.rids[b[2]..])[b[2]..] == prev.rids[b[2]..];
    assert (b[4 + b[2]..4 + b[2] + b[3]] + prev.uids[b[3]..])[b[3]..] == prev.uids[b[3]..];
  }

  /** The record length gen_song_md reports: 5 + nr + nu rounded down to even. */
  function MdLen(md: SongMd): (n: nat)
    ensures n % 2 == 0 && 4 + md.numRegions + md.numUsers <= n <= 5 + md.numRegions + md.numUsers
  {
    ((5 + md.numRegions + md.numUsers) / 2) * 2
  }

  /**
   * The first MdLen(md) bytes gen_song_md leaves in its buffer: length,
   * owner, counts, region ids, user ids, and, when the length was rounded
   * up, one byte the function never writes (pad).
   */
  function Gen(md: SongMd, pad: byte): (buf: seq<byte>)
    requires Fits(md)
    ensures |buf| == MdLen(md) && buf[0] == |buf|
    ensures buf[1] == md.ownerId && buf[2] == md.numRegions && buf[3] == md.numUsers
    ensures buf[4..4 + md.numRegions] == md.rids[..md.numRegions]
    ensures buf[4 + md.numRegions..4 + md.numRegions + md.numUsers] == md.uids[..md.numUsers]
  {
    var body := [MdLen(md), md.ownerId, md.numRegions, md.numUsers] + md.rids[..md.numRegions] + md.uids[..md.numUsers];
    if MdLen(md) == |body| then body else body + [pad]
  }

  /** Loading a generated record gives back the metadata, with md_size now the generated length. */
  lemma LoadGen(prev: SongMd, md: SongMd, pad: byte, rest: seq<byte>)
    requires Sized(prev) && Fits(md)
    ensures Loadable(Gen(md, pad) + rest)
    ensures Load(prev, Gen(md, pad) + rest).mdSize == MdLen(md)
    ensures Load(prev, Gen(md, pad) + rest).ownerId == md.ownerId
    ensures Load(prev, Gen(md, pad) + rest).numRegions == md.numRegions
    ensures Load(prev, Gen(md, pad) + rest).numUsers == md.numUsers
    ensures Load(prev, Gen(md, pad) + rest).rids[..md.numRegions] == md.rids[..md.numRegions]
    ensures Load(prev, Gen(md, pad) + rest).uids[..md.numUsers] == md.uids[..md.numUsers]
  {
    var g := Gen(md, pad);
    var b := g + rest;
    assert b[..|g|] == g;
    assert b[4..4 + md.numRegions] == g[4..4 + md.numRegions];
    assert b[4 + md.numRegions..4 + md.numRegions + md.numUsers] == g[4 + md.numRegions..4 + md.numRegions + md.numUsers];
  }

  // is_locked, lines 160-203.

  /**
   * The user check: the owner, or a user id among the first
   * NUM_PROVISIONED_USERS entries of uids, whatever num_users says.
   */
  predicate UserAuthorized(uid: u32, md: SongMd, numProvisionedUsers: nat)
    requires Sized(md) && numProvisionedUsers <= 64
  {
    uid == md.ownerId || exists i :: 0 <= i < numProvisionedUsers && uid == md.uids[i]
  }

  /**
   * The region check: some listed region id equals one of the first
   * `(u8)NUM_PROVISIONED_REGIONS` provisioned ids.
   */
  predicate RegionMatch(md: SongMd, provisionedRids: seq<u32>)
    requires Fits(md)
  {
    exists i, j :: 0 <= i < md.numRegions && 0 <= j < |provisionedRids| % 256 && provisionedRids[j] == md.rids[i]
  }

  /** An unlocked song needs a logged-in user, authorised and in a matching region. */
  predicate Locked(loggedIn: bool, uid: u32, md: SongMd, numProvisionedUsers: nat, provisionedRids: seq<u32>)
    requires Fits(md) && numProvisionedUsers <= 64
  {
    !loggedIn || !UserAuthorized(uid, md, numProvisionedUsers) || !RegionMatch(md, provisionedRids)
  }

  /** The user loop of is_locked, which stops at the first match. */
  method CheckUser(uid: u32, md: SongMd, numProvisionedUsers: nat) returns (authorized: bool)
    requires Sized(md) && numProvisionedUsers <= 64
    ensures authorized == UserAuthorized(uid, md, numProvisionedUsers)
  {
    var locked := true;
    if uid == md.ownerId {
      locked := false;
    } else {
      var i := 0;
      while i < numProvisionedUsers && locked
        invariant i <= numProvisionedUsers
        invariant locked == forall k :: 0 <= k < i ==> uid != md.uids[k]
      {
        if uid == md.uids[i] {
          locked := false;
        }
        i := i + 1;
      }
    }
    authorized := !locked;
  }

  /** The region loops of is_locked, which run to the end. */
  method CheckRegion(md: SongMd, provisionedRids: seq<u32>) returns (matched: bool)
    requires Fits(md)
    ensures matched == RegionMatch(md, provisionedRids)
  {
    var locked := true;
    var n := |provisionedRids| % 256;
    for i := 0 to md.numRegions
      invariant locked == forall k, j :: 0 <= k < i && 0 <= j < n ==> provisionedRids[j] != md.rids[k]
    {
      for j := 0 to n
        invariant locked == forall k, l :: (0 <= k < i && 0 <= l < n) || (k == i && 0 <= l < j)
                              ==> provisionedRids[l] != md.rids[k]
      {
        if provisionedRids[j] == md.rids[i] {
          locked := false;
        }
      }
    }
    matched := !locked;
  }

  /**
   * Sharing appends the user at index num_users, but the user check reads
   * only the first NUM_PROVISIONED_USERS entries: the new user passes it
   * exactly when that index is among them or the user passed it already.
   */
  lemma SharedUserAuthorized(md: SongMd, u: u8, numProvisionedUsers: nat)
    requires Fits(md) && md.numUsers < 64 && numProvisionedUsers <= 64
    ensures UserAuthorized(u, md.(uids := md.uids[md.numUsers := u], numUsers := md.numUsers + 1), numProvisionedUsers)
            <==> md.numUsers < numProvisionedUsers || UserAuthorized(u, md, numProvisionedUsers)
  {
    var md' := md.(uids := md.uids[md.numUsers := u], numUsers := md.numUsers + 1);
    if UserAuthorized(u, md', numProvisionedUsers) && u != md.ownerId && md.numUsers >= numProvisionedUsers {
      var i :| 0 <= i < numProvisionedUsers && u == md'.uids[i];
      assert md.uids[i] == u;
    }
    if md.numUsers < numProvisionedUsers {
      assert md'.uids[md.numUsers] == u;
    } else if UserAuthorized(u, md, numProvisionedUsers) && u != md.ownerId {
      var i :| 0 <= i < numProvisionedUsers && u == md.uids[i];
      assert md'.uids[i] == u;
    }
  }
}
