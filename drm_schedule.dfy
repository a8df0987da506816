/**
 * mb/drm_audio_fw/src/main.c, the READ_CHUNK step of play_encrypted_song
 * (lines 815-840) and toggle_offset (lines 380-388): which chunk slots of the
 * shared buffer each READ_CHUNK command opens, with which size and which
 * chunk number.
 *
 * The host fills the 60 slots of encSongBuffer in two halves of 30. A
 * command opens up to 30 slots of the half buffer_offset names. Chunk
 * numbers count from chunk_counter, which starts at 1 and survives across
 * commands. While it is below chunks_to_read a 16000-byte chunk is opened
 * and the counter moves on. At chunks_to_read the remainder is opened
 * instead and the batch ends without moving the counter. Above
 * chunks_to_read the command ends playback.
 */
module DrmSchedule {
  import opened Bytes

  /** toggle_offset: 0 becomes 1 and any other value 0. */
  function ToggleOffset(offset: int): (r: int)
    ensures r == 0 || r == 1
    ensures offset == 0 ==> r == 1
    ensures offset != 0 ==> r == 0
  {
    if offset == 0 then 1 else 0
  }

  /** On the two values the offset takes, toggling twice gives it back and toggling once changes it. */
  lemma ToggleOffsetInvolution(offset: int)
    requires offset == 0 || offset == 1
    ensures ToggleOffset(ToggleOffset(offset)) == offset
    ensures ToggleOffset(offset) == 1 - offset
  {
  }

  /** One read_chunks call: the slot buffer_loc, chunk_size and chunk_num. */
  datatype Request = Request(slot: int, size: int, chunkNum: int)

  /**
   * The calls one READ_CHUNK command makes when every tag matches. The first
   * Min(30, chunks_to_read - counter) calls open full chunks, numbered on from
   * counter. When that leaves a slot free, one more call opens the remainder
   * as chunk chunks_to_read.
   */
  function Plan(counter: int, ctr: int, rem: int, offset: int): seq<Request> {
    if counter > ctr then []
    else
      var full := Min(30, ctr - counter);
      seq(full, k requires 0 <= k < full => Request(k + 30 * offset, 16000, counter + k))
      + (if full < 30 then [Request(full + 30 * offset, rem, ctr)] else [])
  }

  /** The counter after a command in which every tag matched. */
  function NextCounter(counter: int, ctr: int): (n: int)
    requires counter <= ctr
    ensures counter <= n <= ctr && n - counter <= 30
    ensures n == ctr <==> ctr - counter <= 30
  {
    counter + Min(30, ctr - counter)
  }

  /**
   * A command reads at most 30 chunks, slot i + 30 * offset for its i-th call,
   * so with offset 0 or 1 it stays in one half of the 60 slots. The k-th call
   * opens chunk counter + k, with 16000 bytes below chunks_to_read and the
   * remainder at it. Nothing is read once the counter has passed chunks_to_read.
   */
  lemma PlanShape(counter: int, ctr: int, rem: int, offset: int)
    requires offset == 0 || offset == 1
    ensures counter > ctr <==> Plan(counter, ctr, rem, offset) == []
    ensures counter <= ctr ==> |Plan(counter, ctr, rem, offset)| == Min(30, ctr - counter + 1)
    ensures forall k :: 0 <= k < |Plan(counter, ctr, rem, offset)| ==>
      && Plan(counter, ctr, rem, offset)[k].slot == k + 30 * offset
      && 30 * offset <= Plan(counter, ctr, rem, offset)[k].slot < 30 * offset + 30
      && 0 <= Plan(counter, ctr, rem, offset)[k].slot < 60
      && Plan(counter, ctr, rem, offset)[k].chunkNum == counter + k
      && Plan(counter, ctr, rem, offset)[k].size == (if counter + k < ctr then 16000 else rem)
  {
  }

  /** Once the counter has reached chunks_to_read, every command opens only the remainder, again, from the first slot of its half. */
  lemma RemainderRepeats(ctr: int, rem: int, offset: int)
    ensures Plan(ctr, ctr, rem, offset) == [Request(30 * offset, rem, ctr)]
    ensures NextCounter(ctr, ctr) == ctr
  {
    assert Plan(ctr, ctr, rem, offset) == [] + [Request(0 + 30 * offset, rem, ctr)];
  }

  /**
   * The calls of the successive commands of one playback: batches of 30
   * with alternating halves, up to the batch that opens the remainder.
   */
  function Schedule(counter: int, ctr: int, rem: int, offset: int): seq<Request>
    decreases ctr - counter
  {
    if counter > ctr then []
    else if ctr - counter < 30 then Plan(counter, ctr, rem, offset)
    else Plan(counter, ctr, rem, offset) + Schedule(counter + 30, ctr, rem, ToggleOffset(offset))
  }

  /**
   * From a counter at most chunks_to_read, the playback opens each chunk
   * number from the counter up to chunks_to_read exactly once and in order.
   * Its j-th call uses slot (j + 30 * offset) mod 60, and only the last call
   * reads the remainder.
   */
  lemma {:induction false} ScheduleShape(counter: int, ctr: int, rem: int, offset: int)
    requires counter <= ctr && (offset == 0 || offset == 1)
    ensures |Schedule(counter, ctr, rem, offset)| == ctr - counter + 1
    ensures forall j :: 0 <= j < |Schedule(counter, ctr, rem, offset)| ==>
      Schedule(counter, ctr, rem, offset)[j]
      == Request((j + 30 * offset) % 60, if counter + j < ctr then 16000 else rem, counter + j)
    decreases ctr - counter
  {
    PlanShape(counter, ctr, rem, offset);
    var p := Plan(counter, ctr, rem, offset);
    if ctr - counter < 30 {
      forall j | 0 <= j < |p|
        ensures p[j] == Request((j + 30 * offset) % 60, if counter + j < ctr then 16000 else rem, counter + j)
      {
        assert (j + 30 * offset) % 60 == j + 30 * offset;
      }
    } else {
      var o := ToggleOffset(offset);
      ToggleOffsetInvolution(offset);
      ScheduleShape(counter + 30, ctr, rem, o);
      var t := Schedule(counter + 30, ctr, rem, o);
      assert Schedule(counter, ctr, rem, offset) == p + t;
      forall j | 0 <= j < |p| + |t|
        ensures (p + t)[j] == Request((j + 30 * offset) % 60, if counter + j < ctr then 16000 else rem, counter + j)
      {
        if j < |p| {
          assert (j + 30 * offset) % 60 == j + 30 * offset;
        } else {
          assert (p + t)[j] == t[j - 30];
          SlotOfLaterBatch(j, offset);
        }
      }
    }
  }

  /** The slot of call j of the next batch, counted from the current batch. */
  lemma SlotOfLaterBatch(j: int, offset: int)
    requires 30 <= j && (offset == 0 || offset == 1)
    ensures (j - 30 + 30 * (1 - offset)) % 60 == (j + 30 * offset) % 60
  {
    if offset == 1 {
      assert j + 30 == (j - 30) + 60;
    }
  }

  /**
   * A playback from the start (counter 1, offset 0) of a song whose size is
   * chunks_to_read * 16000 + remainder, chunks_to_read >= 1, opens
   * chunks_to_read chunks: 1 to chunks_to_read - 1 in full, and then chunk
   * chunks_to_read with only the remainder's size. It therefore reads 16000
   * bytes fewer than the song holds.
   */
  lemma PlaybackReads(ctr: int, rem: int)
    requires 1 <= ctr
    ensures |Schedule(1, ctr, rem, 0)| == ctr
    ensures forall j :: 0 <= j < ctr ==> Schedule(1, ctr, rem, 0)[j].chunkNum == j + 1
    ensures forall j :: 0 <= j < ctr ==> Schedule(1, ctr, rem, 0)[j].slot == j % 60
    ensures forall j :: 0 <= j < ctr - 1 ==> Schedule(1, ctr, rem, 0)[j].size == 16000
    ensures Schedule(1, ctr, rem, 0)[ctr - 1].size == rem
    ensures TotalSize(Schedule(1, ctr, rem, 0)) == 16000 * ctr + rem - 16000
  {
    ScheduleShape(1, ctr, rem, 0);
    SizesAdd(Schedule(1, ctr, rem, 0), rem);
  }

  /** The bytes a list of calls decrypts. */
  function TotalSize(p: seq<Request>): int {
    if p == [] then 0 else TotalSize(p[..|p| - 1]) + p[|p| - 1].size
  }

  lemma {:induction false} SizesAdd(p: seq<Request>, rem: int)
    requires 1 <= |p|
    requires forall j :: 0 <= j < |p| - 1 ==> p[j].size == 16000
    requires p[|p| - 1].size == rem
    ensures TotalSize(p) == 16000 * (|p| - 1) + rem
  {
    var q := p[..|p| - 1];
    if |q| >= 1 {
      FullSizes(q);
    }
  }

  lemma {:induction false} FullSizes(q: seq<Request>)
    requires forall j :: 0 <= j < |q| ==> q[j].size == 16000
    ensures TotalSize(q) == 16000 * |q|
  {
    if q != [] {
      FullSizes(q[..|q| - 1]);
    }
  }
}
