/**
 * What the host programs write into the shared cmd_channel: the user name
 * and PIN of login, the encrypted chunks of read_enc_chunk, and the commands
 * they send. The channel is memory shared with the firmware; the waits on
 * its drm_state are not part of this model.
 */
module HostChannel {
  import opened Bytes
  import opened HostLogin
  import H = HostLayout

  /** The commands sent with send_command that this model follows. */
  datatype Command = Login | ReadChunk

  /** Slot k of encSongBuffer: one encryptedSongChunk of 16028 bytes. */
  function Slot(buf: seq<byte>, k: nat): (r: seq<byte>)
    requires 16028 * k + 16028 <= |buf|
    ensures |r| == 16028
  {
    buf[16028 * k..16028 * k + 16028]
  }

  /** memcpy(&encSongBuffer[loc], bytes, |bytes|) over the bytes of the channel's union. */
  function SlotWrite(buf: seq<byte>, loc: nat, bytes: seq<byte>): (r: seq<byte>)
    requires 16028 * loc + |bytes| <= |buf|
    ensures |r| == |buf|
  {
    buf[..16028 * loc] + bytes + buf[16028 * loc + |bytes|..]
  }

  /** Bytes that fit in one slot replace the start of that slot and leave every other slot as it was. */
  lemma SlotWriteSlots(buf: seq<byte>, loc: nat, bytes: seq<byte>)
    requires 16028 * 60 <= |buf| && loc < 60 && |bytes| <= 16028
    ensures Slot(SlotWrite(buf, loc, bytes), loc) == bytes + Slot(buf, loc)[|bytes|..]
    ensures forall k :: 0 <= k < 60 && k != loc ==> Slot(SlotWrite(buf, loc, bytes), k) == Slot(buf, k)
  {
    var r := SlotWrite(buf, loc, bytes);
    forall k | 0 <= k < 60 && k != loc
      ensures Slot(r, k) == Slot(buf, k)
    {
      if k < loc {
        assert 16028 * k + 16028 <= 16028 * loc;
      } else {
        assert 16028 * loc + 16028 <= 16028 * k;
      }
    }
  }

  /**
   * read_enc_chunk with chunk_size 16000 and a file with a whole section
   * left: the slot receives exactly the next 16028 bytes of the file.
   */
  lemma FullSectionFillsSlot(buf: seq<byte>, loc: nat, rest: seq<byte>, stale: seq<byte>)
    requires 16028 * 60 <= |buf| && loc < 60 && 16028 <= |rest| && |stale| == 16028
    ensures Slot(SlotWrite(buf, loc, CopyInto(rest, 16028, stale)), loc) == rest[..16028]
    ensures forall k :: 0 <= k < 60 && k != loc ==> Slot(SlotWrite(buf, loc, CopyInto(rest, 16028, stale)), k) == Slot(buf, k)
  {
    SlotWriteSlots(buf, loc, CopyInto(rest, 16028, stale));
  }

  class Channel {
    /** c->username and c->pin. */
    var username: string
    var pin: string
    /** The commands sent so far, oldest first. */
    var sent: seq<Command>
    /** The bytes of the channel's union, of which encSongBuffer is the start. */
    const union: array<byte>

    predicate Valid()
      reads this
    {
      |username| == H.USERNAME_SZ && |pin| == H.MAX_PIN_SZ && union.Length == H.MAX_SONG_SZ
    }

    constructor(name0: string, pin0: string)
      requires |name0| == H.USERNAME_SZ && |pin0| == H.MAX_PIN_SZ
      ensures Valid() && username == name0 && pin == pin0 && sent == []
    {
      username, pin, sent := name0, pin0, [];
      union := new byte[H.MAX_SONG_SZ](_ => 0);
    }

    /**
     * login of miPod/src/main.cpp, lines 237-262: on accepted arguments both
     * are strncpy'd into the channel and LOGIN is sent; a rejection writes
     * and sends nothing.
     */
    method MiPodLogin(name: string, pinText: string) returns (check: LoginCheck)
      requires Valid()
      modifies this
      ensures Valid() && check == MiPodCheck(name, pinText)
      ensures check == Accepted ==>
        username == StrNCopy(name, H.USERNAME_SZ) && pin == StrNCopy(pinText, H.MAX_PIN_SZ) && sent == old(sent) + [Login]
      ensures check != Accepted ==> username == old(username) && pin == old(pin) && sent == old(sent)
    {
      if |name| == 0 || |pinText| == 0 || |name| > H.USERNAME_SZ || |pinText| > H.MAX_PIN_SZ {
        return BadLength;
      }
      if FindFirstNotOf(name, IsWordChar).Some? || FindFirstNotOf(pinText, IsDigit).Some? {
        return BadChars;
      }
      username := StrNCopy(name, H.USERNAME_SZ);
      pin := StrNCopy(pinText, H.MAX_PIN_SZ);
      sent := sent + [Login];
      return Accepted;
    }

    /**
     * login of mb/miPod/src/main.cpp, lines 214-237: on accepted arguments
     * both are copied with std::string::copy, at most 16 and 8 characters,
     * and LOGIN is sent. BadChars is the exit(1) that ends the program; no
     * rejection writes or sends anything.
     */
    method MbLogin(name: string, pinText: string) returns (check: LoginCheck)
      requires Valid()
      modifies this
      ensures Valid() && check == MbCheck(name, pinText)
      ensures check == Accepted ==>
        && username == CopyInto(name, H.USERNAME_SZ, old(username))
        && pin == CopyInto(pinText, H.MAX_PIN_SZ, old(pin))
        && sent == old(sent) + [Login]
      ensures check != Accepted ==> username == old(username) && pin == old(pin) && sent == old(sent)
    {
      if |name| == 0 || |pinText| == 0 || |name| > 8 || |pinText| > 10 {
        return BadLength;
      }
      if FindFirstNotOf(name, IsWordChar).Some? || FindFirstNotOf(pinText, IsWordChar).Some? {
        return BadChars;
      }
      username := CopyInto(name, H.USERNAME_SZ, username);
      pin := CopyInto(pinText, H.MAX_PIN_SZ, pin);
      sent := sent + [Login];
      return Accepted;
    }

    /**
     * read_enc_chunk(fp, chunk_size, buffer_loc) of miPod/src/main.cpp, lines
     * 136-146: fread of 28 + chunk_size bytes into a local buffer whose
     * earlier contents are stale, then memcpy of the whole buffer to slot
     * buffer_loc. rest is what is left of the file; the result is what is
     * left after the read.
     */
    method ReadEncChunk(rest: seq<byte>, stale: seq<byte>, chunkSize: nat, bufferLoc: nat) returns (left: seq<byte>)
      requires Valid() && |stale| == 28 + chunkSize && 16028 * bufferLoc + 28 + chunkSize <= union.Length
      modifies union
      ensures left == rest[Min(28 + chunkSize, |rest|)..]
      ensures union[..] == SlotWrite(old(union[..]), bufferLoc, CopyInto(rest, 28 + chunkSize, stale))
    {
      var buffer := CopyInto(rest, 28 + chunkSize, stale);
      left := rest[Min(28 + chunkSize, |rest|)..];
      var base := 16028 * bufferLoc;
      forall k | 0 <= k < |buffer| {
        union[base + k] := buffer[k];
      }
      assert union[..] == SlotWrite(old(union[..]), bufferLoc, buffer);
    }

    /** read_enc_chunk of mb/miPod/src/main.cpp, lines 164-179: the same copy, then READ_CHUNK is sent. */
    method MbReadEncChunk(rest: seq<byte>, stale: seq<byte>, chunkSize: nat, bufferLoc: nat) returns (left: seq<byte>)
      requires Valid() && |stale| == 28 + chunkSize && 16028 * bufferLoc + 28 + chunkSize <= union.Length
      modifies this, union
      ensures Valid() && username == old(username) && pin == old(pin)
      ensures sent == old(sent) + [ReadChunk]
      ensures left == rest[Min(28 + chunkSize, |rest|)..]
      ensures union[..] == SlotWrite(old(union[..]), bufferLoc, CopyInto(rest, 28 + chunkSize, stale))
    {
      left := ReadEncChunk(rest, stale, chunkSize, bufferLoc);
      sent := sent + [ReadChunk];
    }
  }

  /** The name and PIN of an accepted miPod login read back from the channel as given. */
  lemma MiPodLoginReadsBack(name: string, pinText: string)
    requires MiPodCheck(name, pinText) == Accepted
    ensures CString.Str(StrNCopy(name, H.USERNAME_SZ), '\0') == name
    ensures CString.Str(StrNCopy(pinText, H.MAX_PIN_SZ), '\0') == pinText
  {
    AcceptedHaveNoNul(name);
    assert forall k :: 0 <= k < |pinText| ==> IsWordChar(pinText[k]);
    AcceptedHaveNoNul(pinText);
    StrNCopyReadsBack(name, H.USERNAME_SZ);
    StrNCopyReadsBack(pinText, H.MAX_PIN_SZ);
  }
}
