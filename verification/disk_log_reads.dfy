/** Range reads of the disk log as they are consumed: a read yields one event at a time,
    and between two of them events are appended, the file is flushed, and other reads
    start, go on and finish (src/exo/utils/disk_event_log.py:91-136). */
module DiskLogReads {
  import opened Common
  import opened DiskEventLog

  // ----- seeking -----

  /** The position after skipping `n` records. */
  function Skipped(skip: nat -> nat, pos: nat, n: nat): nat
  {
    if n == 0 then pos else skip(Skipped(skip, pos, n - 1))
  }

  function SkipIn(file: seq<byte>): nat -> nat
  {
    pos => SkipRecord(file, pos).1
  }

  /** `_seek_to`: the cached offset, or a scan from the index its loop selects. */
  function SeekPosition(file: seq<byte>, order: seq<nat>, cache: map<nat, nat>, target: nat): nat
  {
    if target in cache then cache[target]
    else
      var from := LastBelow(order, target);
      Skipped(SkipIn(file), if from in cache then cache[from] else 0, if from <= target then target - from else 0)
  }

  ghost predicate SkipsAt(skip: nat -> nat, rs: seq<Record>, k: nat)
    requires k < |rs|
  {
    skip(Offset(rs, k)) == Offset(rs, k + 1)
  }

  lemma {:induction false} SkippedIsExact(skip: nat -> nat, rs: seq<Record>, i: nat, n: nat)
    requires i + n <= |rs| && forall k :: 0 <= k < |rs| ==> SkipsAt(skip, rs, k)
    ensures Skipped(skip, Offset(rs, i), n) == Offset(rs, i + n)
  {
    if n > 0 {
      SkippedIsExact(skip, rs, i, n - 1);
      assert SkipsAt(skip, rs, i + n - 1);
    }
  }

  lemma {:induction false} SkipsAtOffset(rs: seq<Record>, k: nat)
    requires Fits(rs) && k < |rs|
    ensures SkipsAt(SkipIn(Bytes(rs)), rs, k)
  {
    RecordAtOffset(rs, k);
  }

  lemma {:induction false} SeekIsExact(rs: seq<Record>, order: seq<nat>, cache: map<nat, nat>, target: nat)
    requires Fits(rs) && CacheExact(order, cache, rs, OFFSET_CACHE_SIZE) && target <= |rs|
    ensures SeekPosition(Bytes(rs), order, cache, target) == Offset(rs, target)
  {
    if target !in cache {
      var from := LastBelow(order, target);
      LastBelowIsCached(order, target);
      forall k | 0 <= k < |rs| ensures SkipsAt(SkipIn(Bytes(rs)), rs, k) {
        SkipsAtOffset(rs, k);
      }
      SkippedIsExact(SkipIn(Bytes(rs)), rs, from, target - from);
    }
  }

  // ----- the system -----

  /** A read under way: what it has yielded and where its own file handle is.  `log` is,
      for the statement only, what the log held when the read began; `broken` that it met
      an unexpected end of file. */
  datatype Reading = Reading(start: nat, stop: nat, pos: nat, out: seq<Record>, broken: bool, log: seq<Record>) {
    predicate Over()
    {
      broken || start + |out| >= stop
    }
  }

  /** `flushed` bytes of what has been written are visible to readers. */
  datatype World = World(
    records: seq<Record>, flushed: nat, order: seq<nat>, cache: map<nat, nat>, readers: map<nat, Reading>)

  datatype Step =
    | Append(record: Record)
    | Flush(upto: nat)
    | Begin(id: nat, start: int, end: int)
    | Next(id: nat)
    | Finish(id: nat)

  ghost function OnDisk(w: World): seq<byte>
    requires Fits(w.records) && w.flushed <= |Bytes(w.records)|
  {
    Bytes(w.records)[..w.flushed]
  }

  ghost predicate Enabled(w: World, s: Step)
    requires Fits(w.records)
  {
    match s
    case Append(r) => |r| < RECORD_LIMIT
    case Flush(upto) => w.flushed <= upto <= |Bytes(w.records)|
    case Begin(id, _, _) => id !in w.readers
    case Next(id) => id in w.readers && !w.readers[id].Over()
    case Finish(id) => id in w.readers && w.readers[id].Over()
  }

  /** What a read does with the result of one `_read_record`. */
  function Took(r: Reading, result: (Option<Record>, nat)): Reading
  {
    match result.0
    case None => r.(pos := result.1, broken := true)
    case Some(record) => r.(pos := result.1, out := r.out + [record])
  }

  function Stop(end: int, count: nat): int
  {
    if end < count then end else count
  }

  ghost function Do(w: World, s: Step): World
    requires Fits(w.records) && w.flushed <= |Bytes(w.records)| && Enabled(w, s)
  {
    match s
    case Append(r) => w.(records := w.records + [r])
    case Flush(upto) => w.(flushed := upto)
    case Begin(id, start, end) =>
      var stop := Stop(end, |w.records|);
      if start < 0 || stop < 0 || start >= stop then w
      else
        var pos := SeekPosition(Bytes(w.records), w.order, w.cache, start);
        w.(flushed := |Bytes(w.records)|,
           order := Touched(w.order, start), cache := Put(w.order, w.cache, start, pos),
           readers := w.readers[id := Reading(start, stop, pos, [], false, w.records)])
    case Next(id) => w.(readers := w.readers[id := Took(w.readers[id], ReadRecord(OnDisk(w), w.readers[id].pos))])
    case Finish(id) =>
      var r := w.readers[id];
      var done := w.(readers := w.readers - {id});
      if r.stop < |w.records|
      then done.(order := Touched(w.order, r.stop), cache := Put(w.order, w.cache, r.stop, r.pos))
      else done
  }

  // ----- the invariant -----

  /** What a read has yielded is the start of its range, its handle is at the next record,
      and all of its range is on disk. */
  ghost predicate ReaderOk(records: seq<Record>, flushed: nat, r: Reading)
  {
    && !r.broken && r.log <= records
    && r.start + |r.out| <= r.stop <= |r.log|
    && r.out == r.log[r.start..r.start + |r.out|]
    && r.pos == Offset(records, r.start + |r.out|)
    && Offset(records, r.stop) <= flushed
  }

  ghost predicate Inv(w: World)
  {
    && Fits(w.records) && w.flushed <= |Bytes(w.records)|
    && CacheExact(w.order, w.cache, w.records, OFFSET_CACHE_SIZE)
    && forall id :: id in w.readers ==> ReaderOk(w.records, w.flushed, w.readers[id])
  }

  lemma {:induction false} AppendKeepsInv(w: World, record: Record)
    requires Inv(w) && |record| < RECORD_LIMIT
    ensures Inv(w.(records := w.records + [record]))
  {
    var more := w.records + [record];
    BytesAppend(w.records, record);
    forall k: nat | k <= |w.records| ensures Offset(more, k) == Offset(w.records, k) {
      OffsetsSurviveAppend(w.records, record, k);
    }
    forall id | id in w.readers ensures ReaderOk(more, w.flushed, w.readers[id]) {
      assert ReaderOk(w.records, w.flushed, w.readers[id]);
    }
  }

  /** Flushing more keeps every read's range on disk. */
  lemma {:induction false} FlushKeepsInv(w: World, upto: nat)
    requires Inv(w) && w.flushed <= upto <= |Bytes(w.records)|
    ensures Inv(w.(flushed := upto))
  {
    forall id | id in w.readers ensures ReaderOk(w.records, upto, w.readers[id]) {
      assert ReaderOk(w.records, w.flushed, w.readers[id]);
    }
  }

  lemma {:induction false} NewReaderOk(records: seq<Record>, start: nat, stop: nat)
    requires Fits(records) && start < stop <= |records|
    ensures ReaderOk(records, |Bytes(records)|, Reading(start, stop, Offset(records, start), [], false, records))
  {
    BytesGrow(records, stop);
  }

  lemma {:induction false} BeginKeepsInv(w: World, id: nat, start: int, end: int)
    requires Inv(w) && id !in w.readers
    ensures Inv(Do(w, Begin(id, start, end)))
  {
    var stop := Stop(end, |w.records|);
    if 0 <= start < stop {
      var flushed := w.(flushed := |Bytes(w.records)|);
      FlushKeepsInv(w, |Bytes(w.records)|);
      SeekIsExact(w.records, w.order, w.cache, start);
      NewReaderOk(w.records, start, stop);
      CachingKeepsInv(flushed, start);
    }
  }

  /** Caching an exact offset changes nothing for the reads under way. */
  lemma {:induction false} CachingKeepsInv(w: World, idx: nat)
    requires Inv(w) && idx <= |w.records|
    ensures Inv(w.(order := Touched(w.order, idx), cache := Put(w.order, w.cache, idx, Offset(w.records, idx))))
  {
    PutKeepsCacheExact(w.order, w.cache, w.records, idx);
  }

  /** A read of a record that is on disk yields it, however much of the file beyond it is. */
  lemma {:induction false} NextIsExact(records: seq<Record>, file: seq<byte>, pos: nat, k: nat)
    requires Fits(records) && k < |records| && file <= Bytes(records)
    requires pos == Offset(records, k) && Offset(records, k + 1) <= |file|
    ensures ReadRecord(file, pos) == (Some(records[k]), Offset(records, k + 1))
  {
    FrameAtOffset(records, k);
    var next := Offset(records, k + 1);
    assert file[pos..next] == Bytes(records)[pos..next];
    ReadFrame(file, pos, next, records[k]);
  }

  lemma {:induction false} OffsetsGrow(records: seq<Record>, i: nat, j: nat)
    requires i <= j <= |records|
    ensures Offset(records, i) <= Offset(records, j)
  {
    if i < j {
      OffsetsGrow(records, i, j - 1);
    }
  }

  lemma {:induction false} YieldKeepsReaderOk(records: seq<Record>, flushed: nat, r: Reading)
    requires ReaderOk(records, flushed, r) && r.start + |r.out| < r.stop
    ensures var k := r.start + |r.out|;
            ReaderOk(records, flushed, r.(pos := Offset(records, k + 1), out := r.out + [records[k]]))
  {
    var k := r.start + |r.out|;
    assert records[k] == r.log[k];
    assert r.log[r.start..k + 1] == r.log[r.start..k] + [r.log[k]];
  }

  lemma {:induction false} NextIsOnDisk(records: seq<Record>, flushed: nat, r: Reading)
    requires ReaderOk(records, flushed, r) && r.start + |r.out| < r.stop
    ensures Offset(records, r.start + |r.out| + 1) <= flushed
  {
    OffsetsGrow(records, r.start + |r.out| + 1, r.stop);
  }

  lemma {:induction false} NextKeepsReaderOk(records: seq<Record>, file: seq<byte>, r: Reading)
    requires Fits(records) && file <= Bytes(records) && ReaderOk(records, |file|, r) && r.start + |r.out| < r.stop
    ensures ReaderOk(records, |file|, Took(r, ReadRecord(file, r.pos)))
  {
    NextIsOnDisk(records, |file|, r);
    NextIsExact(records, file, r.pos, r.start + |r.out|);
    YieldKeepsReaderOk(records, |file|, r);
  }

  lemma {:induction false} NextKeepsInv(w: World, id: nat)
    requires Inv(w) && Enabled(w, Next(id))
    ensures Inv(Do(w, Next(id)))
  {
    var r, file := w.readers[id], OnDisk(w);
    assert ReaderOk(w.records, |file|, r);
    NextKeepsReaderOk(w.records, file, r);
    ReplaceReader(w, id, Took(r, ReadRecord(file, r.pos)));
  }

  lemma {:induction false} ReplaceReader(w: World, id: nat, r: Reading)
    requires Inv(w) && ReaderOk(w.records, w.flushed, r)
    ensures Inv(w.(readers := w.readers[id := r]))
  {
  }

  lemma {:induction false} FinishKeepsInv(w: World, id: nat)
    requires Inv(w) && Enabled(w, Finish(id))
    ensures Inv(Do(w, Finish(id)))
  {
    var r, done := w.readers[id], w.(readers := w.readers - {id});
    AtItsEnd(w.records, w.flushed, r);
    DropReader(w, id);
    if r.stop < |w.records| {
      CachingKeepsInv(done, r.stop);
    }
  }

  /** A read that is over is at the offset of its end. */
  lemma {:induction false} AtItsEnd(records: seq<Record>, flushed: nat, r: Reading)
    requires ReaderOk(records, flushed, r) && r.Over()
    ensures r.stop <= |records| && r.pos == Offset(records, r.stop)
  {
    assert r.start + |r.out| == r.stop;
  }

  lemma {:induction false} DropReader(w: World, id: nat)
    requires Inv(w)
    ensures Inv(w.(readers := w.readers - {id}))
  {
  }

  lemma {:induction false} StepKeepsInv(w: World, s: Step)
    requires Inv(w) && Enabled(w, s)
    ensures Inv(Do(w, s))
  {
    match s
    case Append(r) => AppendKeepsInv(w, r);
    case Flush(upto) => FlushKeepsInv(w, upto);
    case Begin(id, start, end) => BeginKeepsInv(w, id, start, end);
    case Next(id) => NextKeepsInv(w, id);
    case Finish(id) => FinishKeepsInv(w, id);
  }

  ghost predicate Init(w: World)
  {
    w == World([], 0, [], map[], map[])
  }

  ghost predicate IsRun(run: seq<World>, steps: seq<Step>)
  {
    && |run| == |steps| + 1 && Init(run[0])
    && (forall i :: 0 <= i < |steps| ==>
          && Fits(run[i].records) && run[i].flushed <= |Bytes(run[i].records)|
          && Enabled(run[i], steps[i]) && run[i + 1] == Do(run[i], steps[i]))
  }

  lemma {:induction false} RunKeepsInv(run: seq<World>, steps: seq<Step>, n: nat)
    requires IsRun(run, steps) && n < |run|
    ensures Inv(run[n])
  {
    if n > 0 {
      RunKeepsInv(run, steps, n - 1);
      StepKeepsInv(run[n - 1], steps[n - 1]);
    }
  }

  /** However appends, flushes and other reads come in between, a read that finishes has
      yielded exactly its range of the log as it was when the read began, and every cached
      offset is exact throughout. */
  lemma {:induction false} InterleavedReadsAreExact(run: seq<World>, steps: seq<Step>, n: nat)
    requires IsRun(run, steps) && n < |steps| && steps[n].Finish?
    ensures var r := run[n].readers[steps[n].id];
            !r.broken && r.start <= r.stop <= |r.log| && r.out == r.log[r.start..r.stop] && r.log <= run[n].records
    ensures CacheExact(run[n].order, run[n].cache, run[n].records, OFFSET_CACHE_SIZE)
  {
    RunKeepsInv(run, steps, n);
    assert ReaderOk(run[n].records, run[n].flushed, run[n].readers[steps[n].id]);
  }

  /** Between its beginning and its end nothing but its own progress changes a read. */
  lemma {:induction false} SameRead(run: seq<World>, steps: seq<Step>, b: nat, n: nat, id: nat)
    requires IsRun(run, steps) && b <= n < |run|
    requires forall k :: b <= k < n ==> steps[k] != Finish(id) && !(steps[k].Begin? && steps[k].id == id)
    ensures id in run[b].readers <==> id in run[n].readers
    ensures id in run[b].readers ==>
              var q, r := run[b].readers[id], run[n].readers[id];
              r.log == q.log && r.start == q.start && r.stop == q.stop
  {
    if b < n {
      SameRead(run, steps, b, n - 1, id);
      OtherSteps(run[n - 1], steps[n - 1], id);
    }
  }

  lemma {:induction false} OtherSteps(w: World, s: Step, id: nat)
    requires Fits(w.records) && w.flushed <= |Bytes(w.records)| && Enabled(w, s)
    requires s != Finish(id) && !(s.Begin? && s.id == id)
    ensures id in w.readers <==> id in Do(w, s).readers
    ensures id in w.readers ==>
              var q, r := w.readers[id], Do(w, s).readers[id];
              r.log == q.log && r.start == q.start && r.stop == q.stop
  {
  }

  /** A read of any range, consumed at any pace, yields exactly that range of the log as it
      was when the read began. */
  lemma {:induction false} ReadYieldsItsRange(run: seq<World>, steps: seq<Step>, b: nat, n: nat)
    requires IsRun(run, steps) && b < n < |steps| && steps[b].Begin? && steps[n] == Finish(steps[b].id)
    requires forall k :: b < k < n ==> steps[k] != steps[n] && !(steps[k].Begin? && steps[k].id == steps[b].id)
    ensures run[n].readers[steps[b].id].out == Range(run[b].records, steps[b].start, steps[b].end)
  {
    SameRead(run, steps, b + 1, n, steps[b].id);
    InterleavedReadsAreExact(run, steps, n);
  }
}
