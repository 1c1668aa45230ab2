/** The client of the chunked upload: it cuts, numbers, checksums and paces. */
module FileClient {
  import opened Seqs

  type Bytes = seq<bv8>

  /** The digest both ends compute over a chunk's content. */
  type Digest = Bytes -> string

  datatype Chunk = Chunk(id: int, content: Bytes, sum: string)

  const CHUNK_SIZE := 524288

  /** Nanoseconds per chunk at 50 MiB/s: CHUNK_SIZE * 10^9 / (50 * 1024 * 1024). */
  const UNIT_TIME := 10_000_000

  /** What one turn of the reading loop observes: the clock before and after the optional
      sleep, and the size the read delivers (0 stands for a read error). */
  datatype Turn = Turn(next: int, wake: int, size: nat)

  /** The clock never runs backwards and a sleep lasts at least as long as asked. */
  ghost predicate ClockOk(start: int, turns: seq<Turn>) {
    forall i :: 0 <= i < |turns| ==>
      var prev := if i == 0 then start else turns[i - 1].wake;
      && prev <= turns[i].next <= turns[i].wake
      && (turns[i].next - prev < UNIT_TIME ==> turns[i].wake - turns[i].next >= UNIT_TIME - (turns[i].next - prev))
  }

  /** Bytes of the buffers whose read began no later than the given instant. */
  function BytesBy(bufs: seq<Bytes>, times: seq<int>, instant: int): nat
    requires |bufs| == |times|
  {
    if bufs == [] then 0
    else
      var k := |bufs| - 1;
      BytesBy(bufs[..k], times[..k], instant) + if times[k] <= instant then |bufs[k]| else 0
  }

  ghost predicate Paced(start: int, bufs: seq<Bytes>, times: seq<int>) {
    && |bufs| == |times|
    && (forall k :: 0 <= k < |bufs| ==> 0 < |bufs[k]| <= CHUNK_SIZE)
    && (forall k :: 0 <= k < |times| ==> times[k] >= start + (k + 1) * UNIT_TIME)
  }

  lemma ChunksTake(m: int, n: int)
    requires m <= n
    ensures CHUNK_SIZE * m <= CHUNK_SIZE * n
  {
  }

  /** At any instant at most one chunk has been read per elapsed unit: 50 MiB/s. */
  lemma {:induction false} PacingBound(start: int, bufs: seq<Bytes>, times: seq<int>, instant: int)
    requires Paced(start, bufs, times) && start <= instant
    ensures BytesBy(bufs, times, instant) <= CHUNK_SIZE * |bufs|
    ensures BytesBy(bufs, times, instant) <= CHUNK_SIZE * ((instant - start) / UNIT_TIME)
  {
    if bufs == [] {
      assert BytesBy(bufs, times, instant) == 0;
    } else {
      var k := |bufs| - 1;
      PacingBound(start, bufs[..k], times[..k], instant);
      if times[k] <= instant {
        assert times[k] - start >= (k + 1) * UNIT_TIME;
        ChunksTake(k + 1, (instant - start) / UNIT_TIME);
      }
    }
  }

  lemma PacedSnoc(start: int, bufs: seq<Bytes>, times: seq<int>, buf: Bytes, time: int)
    requires Paced(start, bufs, times) && 0 < |buf| <= CHUNK_SIZE && time >= start + (|bufs| + 1) * UNIT_TIME
    ensures Paced(start, bufs + [buf], times + [time])
  {
  }

  lemma ReadOn(file: Bytes, bufs: seq<Bytes>, offset: nat, end: nat)
    requires offset <= end <= |file| && Concat(bufs) == file[..offset]
    ensures Concat(bufs + [file[offset..end]]) == file[..end]
  {
    ConcatSnoc(bufs, file[offset..end]);
  }

  lemma NextWake(start: int, turns: seq<Turn>, i: nat, prev: int)
    requires ClockOk(start, turns) && i < |turns| && prev == (if i == 0 then start else turns[i - 1].wake)
    ensures turns[i].wake >= prev + UNIT_TIME
  {
  }

  /** Bytes one read returns: what the file system offers, cut to what is left and to the buffer. */
  function ReadSize(left: nat, offered: nat): (n: nat)
    ensures n <= left && n <= CHUNK_SIZE && n <= offered
    ensures n == 0 <==> left == 0 || offered == 0
    ensures n == left || n == CHUNK_SIZE || n == offered
  {
    var room := if left < CHUNK_SIZE then left else CHUNK_SIZE;
    if offered < room then offered else room
  }

  /** The reading goroutine. It stops at the end of the file, at a read error, or when the
      observed prefix of its run ends. */
  method ReadLoop(file: Bytes, start: int, turns: seq<Turn>)
      returns (bufs: seq<Bytes>, times: seq<int>, ended: bool)
    requires ClockOk(start, turns)
    ensures Paced(start, bufs, times)
    ensures Concat(bufs) <= file
    ensures |bufs| <= |turns| && (ended <==> |bufs| < |turns|)
    ensures ended && turns[|bufs|].size > 0 ==> Concat(bufs) == file
    ensures forall instant :: start <= instant ==>
      BytesBy(bufs, times, instant) <= CHUNK_SIZE * ((instant - start) / UNIT_TIME)
    ensures forall instant :: start <= instant ==>
      BytesBy(bufs, times, instant) * 1_000_000_000 <= 50 * 1024 * 1024 * (instant - start)
    ensures forall k :: 0 <= k < |bufs| ==> 0 < |bufs[k]| <= 512 * 1024
  {
    bufs, times, ended := [], [], false;
    var prev: int, offset: nat := start, 0;
    for i := 0 to |turns|
      invariant i == |bufs| && !ended
      invariant prev == if i == 0 then start else turns[i - 1].wake
      invariant prev >= start + i * UNIT_TIME
      invariant Paced(start, bufs, times)
      invariant offset <= |file| && Concat(bufs) == file[..offset]
    {
      NextWake(start, turns, i, prev);
      prev := turns[i].wake;
      var n := ReadSize(|file| - offset, turns[i].size);
      if n == 0 {
        ended := true;
        break;
      }
      ReadOn(file, bufs, offset, offset + n);
      PacedSnoc(start, bufs, times, file[offset..offset + n], prev);
      bufs, times := bufs + [file[offset..offset + n]], times + [prev];
      offset := offset + n;
    }
    PacedAtAll(start, bufs, times);
  }

  lemma PacedAtAll(start: int, bufs: seq<Bytes>, times: seq<int>)
    requires Paced(start, bufs, times)
    ensures forall instant :: start <= instant ==>
      BytesBy(bufs, times, instant) <= CHUNK_SIZE * ((instant - start) / UNIT_TIME)
    ensures forall instant :: start <= instant ==>
      BytesBy(bufs, times, instant) * 1_000_000_000 <= 50 * 1024 * 1024 * (instant - start)
  {
    forall instant | start <= instant
      ensures BytesBy(bufs, times, instant) <= CHUNK_SIZE * ((instant - start) / UNIT_TIME)
      ensures BytesBy(bufs, times, instant) * 1_000_000_000 <= 50 * 1024 * 1024 * (instant - start)
    {
      PacingBound(start, bufs, times, instant);
      FiftyMebibytes(instant - start);
    }
  }

  /** One chunk per unit is 50 MiB per second, with instants in nanoseconds. */
  lemma FiftyMebibytes(elapsed: nat)
    ensures CHUNK_SIZE * (elapsed / UNIT_TIME) * 1_000_000_000 <= 50 * 1024 * 1024 * elapsed
  {
    assert elapsed / UNIT_TIME * UNIT_TIME <= elapsed;
    assert CHUNK_SIZE * 1_000_000_000 == 50 * 1024 * 1024 * UNIT_TIME;
  }

  /** Chunk k of an honest client carries id k, part k and that part's digest. */
  ghost predicate Honest(md5: Digest, parts: seq<Bytes>, c: Chunk) {
    1 <= c.id <= |parts| && c.content == parts[c.id - 1] && c.sum == md5(c.content)
  }

  /** The sending loop; stops at the first failing send. */
  method SendLoop(md5: Digest, bufs: seq<Bytes>, sendOk: nat -> bool) returns (sent: seq<Chunk>, failed: bool)
    ensures |sent| <= |bufs|
    ensures forall k :: 0 <= k < |sent| ==> sent[k].id == k + 1 && Honest(md5, bufs, sent[k]) && sendOk(k)
    ensures if failed then |sent| < |bufs| && !sendOk(|sent|) else |sent| == |bufs|
  {
    sent, failed := [], false;
    var count := 1;
    while |sent| < |bufs|
      invariant count == |sent| + 1 && |sent| <= |bufs|
      invariant forall k :: 0 <= k < |sent| ==> sent[k].id == k + 1 && Honest(md5, bufs, sent[k]) && sendOk(k)
      decreases |bufs| - |sent|
    {
      var buf := bufs[|sent|];
      if !sendOk(|sent|) {
        failed := true;
        return;
      }
      sent := sent + [Chunk(count, buf, md5(buf))];
      count := count + 1;
    }
  }

  function Contents(chunks: seq<Chunk>): (r: seq<Bytes>)
    ensures |r| == |chunks| && forall k :: 0 <= k < |r| ==> r[k] == chunks[k].content
  {
    seq(|chunks|, k requires 0 <= k < |chunks| => chunks[k].content)
  }

  /** The client's two loops joined by their channel: the chunks sent carry ids 1, 2, 3, ...,
      their digests, and a prefix of the file; all of it when reading and sending both end well. */
  method Upload(md5: Digest, file: Bytes, start: int, turns: seq<Turn>, sendOk: nat -> bool)
      returns (sent: seq<Chunk>, bufs: seq<Bytes>)
    requires ClockOk(start, turns)
    ensures forall k :: 0 <= k < |sent| ==> sent[k].id == k + 1 && Honest(md5, bufs, sent[k])
    ensures Concat(Contents(sent)) <= Concat(bufs) <= file
    ensures (forall k :: sendOk(k)) && |bufs| < |turns| && turns[|bufs|].size > 0 ==> Concat(Contents(sent)) == file
  {
    var times, ended, failed;
    bufs, times, ended := ReadLoop(file, start, turns);
    sent, failed := SendLoop(md5, bufs, sendOk);
    assert Contents(sent) == bufs[..|sent|];
    ConcatPrefix(bufs, |sent|);
    assert |sent| == |bufs| ==> bufs[..|sent|] == bufs;
  }
}
