/**
 * mb/drm_audio_fw/src/main.c, lines 62-146: lookups in the user and region
 * tables that secrets.h compiles into the firmware. The tables are a value
 * given to every lookup; their contents are provisioned at build time.
 */
module DrmTables {
  import opened Bytes
  import opened Wrappers
  import CString

  /** An entry of device_users. */
  datatype User = User(uid: u32, username: string, hashedPin: string, salt: string)
  /** An entry of device_regions. */
  datatype Region = Region(regionId: u32, regionName: string)

  /**
   * The provisioned tables: every user and region the device knows, and the
   * ids of those provisioned on it (NUM_USERS, NUM_REGIONS,
   * NUM_PROVISIONED_USERS and NUM_PROVISIONED_REGIONS are the lengths).
   */
  datatype Secrets = Secrets(
    users: seq<User>,
    regions: seq<Region>,
    provisionedUids: seq<u32>,
    provisionedRids: seq<u32>)

  /**
   * The string C reads at device_users[i].username, a `char[USERNAME_SZ]`: its
   * initializer up to the first NUL, or, when the name fills all 16 bytes and
   * leaves no NUL, those 16 characters and then the string in the hashedPin
   * array that follows it in user_struct.
   */
  function DeviceName(u: User): (r: string)
    ensures '\0' !in r
    ensures CString.Length(u.username, '\0') < 16 ==> r == CString.Str(u.username, '\0')
    ensures CString.Length(u.username, '\0') >= 16 ==> r == u.username[..16] + CString.Str(u.hashedPin, '\0')
  {
    if CString.Length(u.username, '\0') < 16 then CString.Str(u.username, '\0')
    else u.username[..16] + CString.Str(u.hashedPin, '\0')
  }

  /** strcmp(name, device_users[i].username) == 0. */
  predicate NameIs(name: string, u: User) {
    CString.Str(name, '\0') == DeviceName(u)
  }

  const UNKNOWN_REGION := "<unknown region>"
  const UNKNOWN_USER := "<unknown user>"

  /** Conversion to a (signed) `char`: the value in [-128, 128) that agrees modulo 256. */
  function SignedChar(x: int): (c: int)
    ensures -128 <= c < 128 && (c - x) % 256 == 0
  {
    if x % 256 < 128 then x % 256 else x % 256 - 256
  }

  /**
   * The value a `char` parameter has when compared with a u32 table entry:
   * truncated to a signed char, then sign-extended and converted to unsigned.
   */
  function CharAsU32(x: int): (r: u32)
    ensures 0 <= x % 256 < 128 ==> r == x % 256
    ensures 128 <= x % 256 ==> r == x % 256 + 0xFFFF_FF00
  {
    WrapU32(SignedChar(x))
  }

  /** The first true position. */
  function First(bs: seq<bool>): (r: Option<nat>)
    ensures r.Some? ==> r.value < |bs| && bs[r.value] && forall j :: 0 <= j < r.value ==> !bs[j]
    ensures r.None? ==> forall j :: 0 <= j < |bs| ==> !bs[j]
  {
    if bs == [] then None
    else if bs[0] then Some(0)
    else match First(bs[1..])
      case None => None
      case Some(k) => Some(k + 1)
  }

  lemma FirstAt(bs: seq<bool>, i: nat)
    requires i < |bs| && bs[i]
    requires forall j :: 0 <= j < i ==> !bs[j]
    ensures First(bs) == Some(i)
  {
  }

  lemma FirstNone(bs: seq<bool>)
    requires forall j :: 0 <= j < |bs| ==> !bs[j]
    ensures First(bs) == None
  {
  }

  // Provisioning tests (is_provisioned_rid, is_provisioned_uid).

  predicate ProvisionedRid(sec: Secrets, rid: int) {
    CharAsU32(rid) in sec.provisionedRids
  }

  predicate ProvisionedUid(sec: Secrets, uid: int) {
    CharAsU32(uid) in sec.provisionedUids
  }

  /** is_provisioned_rid(char rid): whether the id is in provisioned_rid. */
  method IsProvisionedRid(sec: Secrets, rid: int) returns (b: bool)
    ensures b == ProvisionedRid(sec, rid)
  {
    for i := 0 to |sec.provisionedRids|
      invariant CharAsU32(rid) !in sec.provisionedRids[..i]
    {
      if CharAsU32(rid) == sec.provisionedRids[i] {
        return true;
      }
    }
    assert sec.provisionedRids[..|sec.provisionedRids|] == sec.provisionedRids;
    return false;
  }

  /** is_provisioned_uid(char uid): whether the id is in provisioned_uid. */
  method IsProvisionedUid(sec: Secrets, uid: int) returns (b: bool)
    ensures b == ProvisionedUid(sec, uid)
  {
    for i := 0 to |sec.provisionedUids|
      invariant CharAsU32(uid) !in sec.provisionedUids[..i]
    {
      if CharAsU32(uid) == sec.provisionedUids[i] {
        return true;
      }
    }
    assert sec.provisionedUids[..|sec.provisionedUids|] == sec.provisionedUids;
    return false;
  }

  /**
   * An id whose low byte is 128 or more is sign-extended by the `char`
   * parameter, so it never matches a provisioned id below 0xFFFFFF00.
   */
  lemma WideRidNotProvisioned(sec: Secrets, rid: int)
    requires 128 <= rid % 256
    requires forall p :: p in sec.provisionedRids ==> p < 0xFFFF_FF00
    ensures !ProvisionedRid(sec, rid)
  {
  }

  // rid_to_region_name.

  function RidMatches(sec: Secrets, rid: u32, provisionedOnly: bool): seq<bool> {
    seq(|sec.regions|, i requires 0 <= i < |sec.regions| =>
      sec.regions[i].regionId == rid && (!provisionedOnly || ProvisionedRid(sec, rid)))
  }

  /** The name of the first region with this id, if the id passes the provisioning filter. */
  function RegionNameOf(sec: Secrets, rid: u32, provisionedOnly: bool): (r: (bool, string))
    ensures r.0 <==> (exists i :: 0 <= i < |sec.regions| && sec.regions[i].regionId == rid)
                     && (!provisionedOnly || ProvisionedRid(sec, rid))
    ensures r.0 ==> (exists i :: 0 <= i < |sec.regions| && sec.regions[i].regionId == rid
                         && r.1 == sec.regions[i].regionName
                         && forall j :: 0 <= j < i ==> sec.regions[j].regionId != rid)
    ensures !r.0 ==> r.1 == UNKNOWN_REGION
  {
    assert forall i :: 0 <= i < |sec.regions| ==> (RidMatches(sec, rid, provisionedOnly)[i]
      <==> sec.regions[i].regionId == rid && (!provisionedOnly || ProvisionedRid(sec, rid)));
    match First(RidMatches(sec, rid, provisionedOnly))
    case Some(i) => (true, sec.regions[i].regionName)
    case None => (false, UNKNOWN_REGION)
  }

  /** rid_to_region_name(rid, &name, provisioned_only). */
  method RidToRegionName(sec: Secrets, rid: u32, provisionedOnly: bool) returns (found: bool, name: string)
    ensures (found, name) == RegionNameOf(sec, rid, provisionedOnly)
  {
    for i := 0 to |sec.regions|
      invariant forall j :: 0 <= j < i ==> !RidMatches(sec, rid, provisionedOnly)[j]
    {
      if sec.regions[i].regionId == rid {
        var ok := !provisionedOnly;
        if !ok {
          ok := IsProvisionedRid(sec, rid);
        }
        if ok {
          FirstAt(RidMatches(sec, rid, provisionedOnly), i);
          return true, sec.regions[i].regionName;
        }
      }
    }
    FirstNone(RidMatches(sec, rid, provisionedOnly));
    return false, UNKNOWN_REGION;
  }

  // region_name_to_rid.

  function NameMatches(sec: Secrets, name: string, provisionedOnly: bool): seq<bool> {
    seq(|sec.regions|, i requires 0 <= i < |sec.regions| =>
      CString.StrEq(name, sec.regions[i].regionName)
      && (!provisionedOnly || ProvisionedRid(sec, sec.regions[i].regionId)))
  }

  /**
   * The id, as the signed `char` the caller receives, of the first region of
   * that name that passes the provisioning filter; -1 when there is none.
   */
  function RidOfName(sec: Secrets, name: string, provisionedOnly: bool): (r: (bool, int))
    ensures r.0 <==> exists i :: 0 <= i < |sec.regions| && NameMatches(sec, name, provisionedOnly)[i]
    ensures r.0 ==> (exists i :: 0 <= i < |sec.regions| && NameMatches(sec, name, provisionedOnly)[i]
                         && r.1 == SignedChar(sec.regions[i].regionId)
                         && forall j :: 0 <= j < i ==> !NameMatches(sec, name, provisionedOnly)[j])
    ensures !r.0 ==> r.1 == -1
  {
    match First(NameMatches(sec, name, provisionedOnly))
    case Some(i) => (true, SignedChar(sec.regions[i].regionId))
    case None => (false, -1)
  }

  /** region_name_to_rid(name, &rid, provisioned_only). */
  method RegionNameToRid(sec: Secrets, name: string, provisionedOnly: bool) returns (found: bool, rid: int)
    ensures (found, rid) == RidOfName(sec, name, provisionedOnly)
  {
    for i := 0 to |sec.regions|
      invariant forall j :: 0 <= j < i ==> !NameMatches(sec, name, provisionedOnly)[j]
    {
      if CString.Str(name, '\0') == CString.Str(sec.regions[i].regionName, '\0') {
        var ok := !provisionedOnly;
        if !ok {
          ok := IsProvisionedRid(sec, sec.regions[i].regionId);
        }
        if ok {
          FirstAt(NameMatches(sec, name, provisionedOnly), i);
          return true, SignedChar(sec.regions[i].regionId);
        }
      }
    }
    FirstNone(NameMatches(sec, name, provisionedOnly));
    return false, -1;
  }

  // uid_to_username.

  function UidMatches(sec: Secrets, uid: u32, provisionedOnly: bool): seq<bool> {
    seq(|sec.users|, i requires 0 <= i < |sec.users| =>
      sec.users[i].uid == uid && (!provisionedOnly || ProvisionedUid(sec, uid)))
  }

  /** The name of the first user with this id, if the id passes the provisioning filter. */
  function UsernameOf(sec: Secrets, uid: u32, provisionedOnly: bool): (r: (bool, string))
    ensures r.0 <==> (exists i :: 0 <= i < |sec.users| && sec.users[i].uid == uid)
                     && (!provisionedOnly || ProvisionedUid(sec, uid))
    ensures r.0 ==> (exists i :: 0 <= i < |sec.users| && sec.users[i].uid == uid
                         && r.1 == DeviceName(sec.users[i])
                         && forall j :: 0 <= j < i ==> sec.users[j].uid != uid)
    ensures !r.0 ==> r.1 == UNKNOWN_USER
  {
    assert forall i :: 0 <= i < |sec.users| ==> (UidMatches(sec, uid, provisionedOnly)[i]
      <==> sec.users[i].uid == uid && (!provisionedOnly || ProvisionedUid(sec, uid)));
    match First(UidMatches(sec, uid, provisionedOnly))
    case Some(i) => (true, DeviceName(sec.users[i]))
    case None => (false, UNKNOWN_USER)
  }

  /** uid_to_username(uid, &name, provisioned_only). */
  method UidToUsername(sec: Secrets, uid: u32, provisionedOnly: bool) returns (found: bool, name: string)
    ensures (found, name) == UsernameOf(sec, uid, provisionedOnly)
  {
    for i := 0 to |sec.users|
      invariant forall j :: 0 <= j < i ==> !UidMatches(sec, uid, provisionedOnly)[j]
    {
      if sec.users[i].uid == uid {
        var ok := !provisionedOnly;
        if !ok {
          ok := IsProvisionedUid(sec, uid);
        }
        if ok {
          FirstAt(UidMatches(sec, uid, provisionedOnly), i);
          return true, DeviceName(sec.users[i]);
        }
      }
    }
    FirstNone(UidMatches(sec, uid, provisionedOnly));
    return false, UNKNOWN_USER;
  }

  // username_to_uid.

  function UsernameMatches(sec: Secrets, name: string, provisionedOnly: bool): seq<bool> {
    seq(|sec.users|, i requires 0 <= i < |sec.users| =>
      NameIs(name, sec.users[i])
      && (!provisionedOnly || ProvisionedUid(sec, sec.users[i].uid)))
  }

  /**
   * The id, truncated to the `u8` the caller receives, of the first user of
   * that name that passes the provisioning filter; 255 (-1 as a u8) when there is none.
   */
  function UidOfName(sec: Secrets, name: string, provisionedOnly: bool): (r: (bool, u8))
    ensures r.0 <==> exists i :: 0 <= i < |sec.users| && UsernameMatches(sec, name, provisionedOnly)[i]
    ensures r.0 ==> (exists i :: 0 <= i < |sec.users| && UsernameMatches(sec, name, provisionedOnly)[i]
                         && r.1 == sec.users[i].uid % 256
                         && forall j :: 0 <= j < i ==> !UsernameMatches(sec, name, provisionedOnly)[j])
    ensures !r.0 ==> r.1 == 255
  {
    match First(UsernameMatches(sec, name, provisionedOnly))
    case Some(i) => (true, sec.users[i].uid % 256)
    case None => (false, 255)
  }

  /** username_to_uid(name, &uid, provisioned_only). */
  method UsernameToUid(sec: Secrets, name: string, provisionedOnly: bool) returns (found: bool, uid: u8)
    ensures (found, uid) == UidOfName(sec, name, provisionedOnly)
  {
    for i := 0 to |sec.users|
      invariant forall j :: 0 <= j < i ==> !UsernameMatches(sec, name, provisionedOnly)[j]
    {
      if CString.Str(name, '\0') == DeviceName(sec.users[i]) {
        var ok := !provisionedOnly;
        if !ok {
          ok := IsProvisionedUid(sec, sec.users[i].uid);
        }
        if ok {
          FirstAt(UsernameMatches(sec, name, provisionedOnly), i);
          return true, sec.users[i].uid % 256;
        }
      }
    }
    FirstNone(UsernameMatches(sec, name, provisionedOnly));
    return false, 255;
  }

  // Round trips, for tables whose names are distinct.

  predicate DistinctUsernames(sec: Secrets) {
    forall i, j :: 0 <= i < j < |sec.users| ==> DeviceName(sec.users[i]) != DeviceName(sec.users[j])
  }

  predicate DistinctRegionNames(sec: Secrets) {
    forall i, j :: 0 <= i < j < |sec.regions| ==> !CString.StrEq(sec.regions[i].regionName, sec.regions[j].regionName)
  }

  /** The name found for a user id leads back to that id, as far as a u8 can hold it. */
  lemma UserRoundTrip(sec: Secrets, uid: u32)
    requires DistinctUsernames(sec)
    requires UsernameOf(sec, uid, false).0
    ensures UidOfName(sec, UsernameOf(sec, uid, false).1, false) == (true, uid % 256)
  {
    var i :| 0 <= i < |sec.users| && sec.users[i].uid == uid
             && UsernameOf(sec, uid, false).1 == DeviceName(sec.users[i])
             && forall j :: 0 <= j < i ==> sec.users[j].uid != uid;
    NameFindsItsUser(sec, i);
  }

  lemma NameFindsItsUser(sec: Secrets, i: nat)
    requires DistinctUsernames(sec) && i < |sec.users|
    ensures UidOfName(sec, DeviceName(sec.users[i]), false) == (true, sec.users[i].uid % 256)
  {
    CString.StrOfPlain(DeviceName(sec.users[i]), '\0');
    assert UsernameMatches(sec, DeviceName(sec.users[i]), false)[i];
    forall j | 0 <= j < i
      ensures !UsernameMatches(sec, DeviceName(sec.users[i]), false)[j]
    {
      assert DeviceName(sec.users[j]) != DeviceName(sec.users[i]);
    }
    FirstAt(UsernameMatches(sec, DeviceName(sec.users[i]), false), i);
  }

  /** The name found for a region id leads back to that id, as the signed char the caller receives. */
  lemma RegionRoundTrip(sec: Secrets, rid: u32)
    requires DistinctRegionNames(sec)
    requires RegionNameOf(sec, rid, false).0
    ensures RidOfName(sec, RegionNameOf(sec, rid, false).1, false) == (true, SignedChar(rid))
  {
    var i :| 0 <= i < |sec.regions| && sec.regions[i].regionId == rid
             && RegionNameOf(sec, rid, false).1 == sec.regions[i].regionName
             && forall j :: 0 <= j < i ==> sec.regions[j].regionId != rid;
    NameFindsItsRegion(sec, i);
  }

  lemma NameFindsItsRegion(sec: Secrets, i: nat)
    requires DistinctRegionNames(sec) && i < |sec.regions|
    ensures RidOfName(sec, sec.regions[i].regionName, false) == (true, SignedChar(sec.regions[i].regionId))
  {
    var m := NameMatches(sec, sec.regions[i].regionName, false);
    assert m[i];
    var k :| 0 <= k < |sec.regions| && m[k] && RidOfName(sec, sec.regions[i].regionName, false).1 == SignedChar(sec.regions[k].regionId)
             && forall j :: 0 <= j < k ==> !m[j];
  }
}
