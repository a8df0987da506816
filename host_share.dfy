/**
 * share_enc_song of miPod/src/main.cpp (lines 479-584) without its file
 * I/O: the encrypted metadata section is sent to the firmware, and when the
 * firmware accepts the share the file is rewritten with the section the
 * firmware returned in its place.
 */
module HostShare {
  import opened Bytes
  import opened HostLogin
  import H = HostLayout
  import SongContainer

  /** Where the metadata section starts: ENC_WAVE_HEADER_SZ + META_DATA_ALLOC = 76. */
  const SECTION_START := H.ENC_WAVE_HEADER_SZ + H.META_DATA_ALLOC
  /** Where it ends: 76 + ENC_METADATA_SZ = 494. */
  const SECTION_END := SECTION_START + H.ENC_METADATA_SZ

  /** The ENC_METADATA_SZ bytes read after the header section and copied to c->encMetadata. */
  function ShareRequest(file: seq<byte>): (r: seq<byte>)
    requires SECTION_END <= |file|
    ensures |r| == 418
  {
    file[SECTION_START..SECTION_END]
  }

  /**
   * The rewritten file: the first 76 bytes, the new section, then everything
   * after the old one (byte_to_read = file size - 494 bytes).
   */
  function ShareSplice(file: seq<byte>, md: seq<byte>): (r: seq<byte>)
    requires SECTION_END <= |file| && |md| == H.ENC_METADATA_SZ
    ensures |r| == |file|
  {
    file[..SECTION_START] + md + file[SECTION_END..]
  }

  /** The splice changes the metadata section into md and nothing else. */
  lemma SpliceFields(file: seq<byte>, md: seq<byte>)
    requires SECTION_END <= |file| && |md| == H.ENC_METADATA_SZ
    ensures ShareRequest(ShareSplice(file, md)) == md
    ensures forall k :: 0 <= k < |file| && !(76 <= k < 494) ==> ShareSplice(file, md)[k] == file[k]
  {
  }

  /** Splicing in the section the file already has leaves it as it was; a second splice overrides the first. */
  lemma SpliceAlgebra(file: seq<byte>, md: seq<byte>, md2: seq<byte>)
    requires SECTION_END <= |file| && |md| == H.ENC_METADATA_SZ && |md2| == H.ENC_METADATA_SZ
    ensures ShareSplice(file, ShareRequest(file)) == file
    ensures ShareSplice(ShareSplice(file, md), md2) == ShareSplice(file, md2)
  {
    assert file == file[..76] + file[76..494] + file[494..];
    var f := ShareSplice(file, md);
    assert f[..76] == file[..76] && f[494..] == file[494..];
  }

  /**
   * On a container with metadata_size 390 (a 418-byte metadata section) the
   * request is that section and the splice replaces exactly it.
   */
  lemma SpliceReplacesMetadataSection(header: seq<byte>, mdSection: seq<byte>, chunks: seq<byte>, last: seq<byte>,
                                      md: seq<byte>)
    requires |header| == 76 && |mdSection| == 418 && |md| == 418
    ensures ShareRequest(SongContainer.Assemble(header, mdSection, chunks, last)) == mdSection
    ensures ShareSplice(SongContainer.Assemble(header, mdSection, chunks, last), md)
         == SongContainer.Assemble(header, md, chunks, last)
  {
    var f := SongContainer.Assemble(header, mdSection, chunks, last);
    assert f == header + mdSection + (chunks + last);
    assert f[..76] == header && f[76..494] == mdSection && f[494..] == chunks + last;
  }

  /** How share_enc_song ends: no user name given, the firmware refused, or the new file. */
  datatype ShareOutcome = NeedUsername | Rejected | Replaced(file: seq<byte>)

  /**
   * share_enc_song on a file of at least 494 bytes whose remaining part fits
   * the static song_buffer: nothing for an empty user name, nothing when the
   * firmware set share_rejected, and otherwise the file with the section the
   * firmware left in c->encMetadata.
   */
  function ShareEncSong(username: string, file: seq<byte>, rejected: bool, md: seq<byte>): (r: ShareOutcome)
    requires SECTION_END <= |file| && |file| - SECTION_END <= H.MAX_SONG_SZ && |md| == H.ENC_METADATA_SZ
    ensures r == NeedUsername <==> username == []
    ensures r.Replaced? <==> username != [] && !rejected
    ensures r.Replaced? ==> |r.file| == |file|
    ensures r.Replaced? ==> r.file[..76] == file[..76] && r.file[494..] == file[494..] && ShareRequest(r.file) == md
  {
    if username == [] then NeedUsername
    else if rejected then Rejected
    else Replaced(ShareSplice(file, md))
  }

  /** The user name goes to c->username with std::string::copy, at most USERNAME_SZ characters and no terminator. */
  function ShareUsername(username: string, buf: string): (r: string)
    requires |buf| == H.USERNAME_SZ
    ensures |r| == H.USERNAME_SZ
    ensures |username| >= H.USERNAME_SZ ==> r == username[..H.USERNAME_SZ]
    ensures |username| < H.USERNAME_SZ ==> r[..|username|] == username && r[|username|..] == buf[|username|..]
  {
    CopyInto(username, H.USERNAME_SZ, buf)
  }
}
