/** The master's on-disk event log (src/exo/utils/disk_event_log.py): a file of
    length-prefixed records, read back through a bounded LRU cache of record
    offsets. */
module DiskEventLog {
  import opened Common

  type byte = x: int | 0 <= x < 256
  type Record = seq<byte>

  const HEADER_SIZE: nat := 4
  const OFFSET_CACHE_SIZE: nat := 128
  /** `len(packed).to_bytes(4)` raises from here on. */
  const RECORD_LIMIT: nat := 0x1_0000_0000

  // ----- file format -----

  /** `n.to_bytes(size, "big")`, low bits only. */
  function ToBytes(n: nat, size: nat): (b: seq<byte>)
    ensures |b| == size
  {
    if size == 0 then [] else ToBytes(n / 256, size - 1) + [n % 256]
  }

  /** `int.from_bytes(b, "big")`. */
  function FromBytes(b: seq<byte>): nat
  {
    if b == [] then 0 else FromBytes(b[..|b| - 1]) * 256 + b[|b| - 1]
  }

  /** How many numbers `size` bytes can hold. */
  function Capacity(size: nat): nat
  {
    if size == 0 then 1 else 256 * Capacity(size - 1)
  }

  lemma {:induction false} BytesRoundTrip(n: nat, size: nat)
    requires n < Capacity(size)
    ensures FromBytes(ToBytes(n, size)) == n
  {
    if size > 0 {
      BytesRoundTrip(n / 256, size - 1);
      assert ToBytes(n, size)[..size - 1] == ToBytes(n / 256, size - 1);
    }
  }

  function PackHeader(n: nat): seq<byte>
    requires n < RECORD_LIMIT
  {
    ToBytes(n, HEADER_SIZE)
  }

  lemma {:induction false} HeaderRoundTrip(n: nat)
    requires n < RECORD_LIMIT
    ensures FromBytes(PackHeader(n)) == n
  {
    assert Capacity(4) == 256 * Capacity(3) && Capacity(3) == 256 * Capacity(2) && Capacity(2) == 256 * Capacity(1);
    BytesRoundTrip(n, HEADER_SIZE);
  }

  ghost predicate Fits(rs: seq<Record>)
  {
    forall i :: 0 <= i < |rs| ==> |rs[i]| < RECORD_LIMIT
  }

  ghost function Frame(r: Record): seq<byte>
    requires |r| < RECORD_LIMIT
  {
    PackHeader(|r|) + r
  }

  /** The file that holds exactly these records. */
  ghost function Bytes(rs: seq<Record>): seq<byte>
    requires Fits(rs)
  {
    if rs == [] then [] else Bytes(rs[..|rs| - 1]) + Frame(rs[|rs| - 1])
  }

  /** The byte position of record `i`. */
  ghost function Offset(rs: seq<Record>, i: nat): nat
    requires i <= |rs|
  {
    if i == 0 then 0 else Offset(rs, i - 1) + HEADER_SIZE + |rs[i - 1]|
  }

  /** `f.read(n)` at position `pos`. */
  function ReadAt(file: seq<byte>, pos: nat, n: nat): seq<byte>
  {
    if |file| <= pos then [] else if |file| < pos + n then file[pos..] else file[pos..pos + n]
  }

  /** `_skip_record`: whether a record was there, and the new position. */
  function SkipRecord(file: seq<byte>, pos: nat): (bool, nat)
  {
    var header := ReadAt(file, pos, HEADER_SIZE);
    if |header| < HEADER_SIZE then (false, pos + |header|)
    else (true, pos + HEADER_SIZE + FromBytes(header))
  }

  /** `_read_record` before deserialisation. */
  function ReadRecord(file: seq<byte>, pos: nat): (Option<Record>, nat)
  {
    var header := ReadAt(file, pos, HEADER_SIZE);
    if |header| < HEADER_SIZE then (None, pos + |header|)
    else
      var length := FromBytes(header);
      var payload := ReadAt(file, pos + HEADER_SIZE, length);
      (if |payload| < length then None else Some(payload), pos + HEADER_SIZE + |payload|)
  }

  lemma {:induction false} OffsetInPrefix(rs: seq<Record>, longer: seq<Record>, i: nat)
    requires i <= |rs| && rs <= longer
    ensures Offset(rs, i) == Offset(longer, i)
  {
    if i > 0 {
      OffsetInPrefix(rs, longer, i - 1);
    }
  }

  lemma {:induction false} BytesEnd(rs: seq<Record>)
    requires Fits(rs)
    ensures Offset(rs, |rs|) == |Bytes(rs)|
  {
    if rs != [] {
      var front := rs[..|rs| - 1];
      BytesEnd(front);
      OffsetInPrefix(front, rs, |front|);
    }
  }

  /** Up to the offset of record `i`, the file holds exactly the records before it. */
  lemma {:induction false} BytesUpTo(rs: seq<Record>, i: nat)
    requires Fits(rs) && i <= |rs|
    ensures Offset(rs, i) <= |Bytes(rs)| && Bytes(rs)[..Offset(rs, i)] == Bytes(rs[..i])
  {
    if i == |rs| {
      assert rs[..i] == rs;
      BytesEnd(rs);
    } else {
      var front := rs[..|rs| - 1];
      BytesUpTo(front, i);
      OffsetInPrefix(front, rs, i);
      assert front[..i] == rs[..i];
      assert Bytes(rs) == Bytes(front) + Frame(rs[|rs| - 1]);
    }
  }

  lemma {:induction false} BytesGrow(rs: seq<Record>, i: nat)
    requires Fits(rs) && i <= |rs|
    ensures Offset(rs, i) <= |Bytes(rs)| && Bytes(rs)[..Offset(rs, i)] == Bytes(rs[..i])
    ensures Offset(rs, |rs|) == |Bytes(rs)|
  {
    BytesUpTo(rs, i);
    BytesEnd(rs);
  }

  lemma {:induction false} BytesAppend(rs: seq<Record>, r: Record)
    requires Fits(rs) && |r| < RECORD_LIMIT
    ensures Fits(rs + [r]) && Bytes(rs + [r]) == Bytes(rs) + Frame(r)
  {
    assert (rs + [r])[..|rs|] == rs;
  }

  /** Appending keeps the position of every earlier record and of the old end. */
  lemma {:induction false} OffsetsSurviveAppend(rs: seq<Record>, r: Record, i: nat)
    requires i <= |rs|
    ensures Offset(rs + [r], i) == Offset(rs, i)
  {
    OffsetInPrefix(rs, rs + [r], i);
  }

  lemma {:induction false} FrameAtOffset(rs: seq<Record>, i: nat)
    requires Fits(rs) && i < |rs|
    ensures Offset(rs, i + 1) == Offset(rs, i) + HEADER_SIZE + |rs[i]| <= |Bytes(rs)|
    ensures Bytes(rs)[Offset(rs, i)..Offset(rs, i + 1)] == Frame(rs[i])
  {
    BytesGrow(rs, i);
    BytesGrow(rs, i + 1);
    var file, upto := Bytes(rs), Bytes(rs[..i + 1]);
    assert rs[..i + 1][..i] == rs[..i];
    assert upto == Bytes(rs[..i]) + Frame(rs[i]);
    assert |Bytes(rs[..i])| == Offset(rs, i);
    assert file[Offset(rs, i)..Offset(rs, i + 1)] == upto[Offset(rs, i)..];
  }

  /** At the offset of record `i`, one read yields it and stops at record `i + 1`. */
  lemma {:induction false} RecordAtOffset(rs: seq<Record>, i: nat)
    requires Fits(rs) && i < |rs|
    ensures ReadRecord(Bytes(rs), Offset(rs, i)) == (Some(rs[i]), Offset(rs, i + 1))
    ensures SkipRecord(Bytes(rs), Offset(rs, i)) == (true, Offset(rs, i + 1))
    ensures Offset(rs, i + 1) <= |Bytes(rs)|
  {
    FrameAtOffset(rs, i);
    ReadFrame(Bytes(rs), Offset(rs, i), Offset(rs, i + 1), rs[i]);
  }

  lemma {:induction false} ReadFrame(file: seq<byte>, pos: nat, next: nat, r: Record)
    requires |r| < RECORD_LIMIT && next == pos + HEADER_SIZE + |r| <= |file|
    requires file[pos..next] == Frame(r)
    ensures ReadRecord(file, pos) == (Some(r), next)
    ensures SkipRecord(file, pos) == (true, next)
  {
    var f := file[pos..next];
    assert ReadAt(file, pos, HEADER_SIZE) == f[..HEADER_SIZE] == PackHeader(|r|);
    HeaderRoundTrip(|r|);
    assert ReadAt(file, pos + HEADER_SIZE, |r|) == f[HEADER_SIZE..] == r;
  }

  /** A file cut off after a record still yields it. */
  lemma {:induction false} WholeRecordIsRead(rs: seq<Record>, k: nat, n: nat)
    requires Fits(rs) && k < |rs| && Offset(rs, k + 1) <= n <= |Bytes(rs)|
    ensures ReadRecord(Bytes(rs)[..n], Offset(rs, k)) == (Some(rs[k]), Offset(rs, k + 1))
  {
    var file, from, to := Bytes(rs), Offset(rs, k), Offset(rs, k + 1);
    FrameAtOffset(rs, k);
    assert file[..n][from..to] == file[from..to];
    ReadFrame(file[..n], from, to, rs[k]);
  }

  /** A file cut off inside a record yields nothing of it. */
  lemma {:induction false} TornRecordIsNotRead(rs: seq<Record>, i: nat, n: nat)
    requires Fits(rs) && i < |rs| && Offset(rs, i) <= n < Offset(rs, i + 1)
    ensures n <= |Bytes(rs)| && ReadRecord(Bytes(rs)[..n], Offset(rs, i)).0.None?
  {
    var file, at, next := Bytes(rs), Offset(rs, i), Offset(rs, i + 1);
    RecordAtOffset(rs, i);
    TornFrame(file, at, next, n, rs[i]);
  }

  lemma {:induction false} TornFrame(file: seq<byte>, pos: nat, next: nat, n: nat, r: Record)
    requires |r| < RECORD_LIMIT && pos <= n < next == pos + HEADER_SIZE + |r| <= |file|
    requires ReadRecord(file, pos) == (Some(r), next)
    ensures ReadRecord(file[..n], pos).0.None?
  {
    if n >= pos + HEADER_SIZE {
      assert ReadAt(file[..n], pos, HEADER_SIZE) == ReadAt(file, pos, HEADER_SIZE);
    }
  }

  type Reader = nat -> (Option<Record>, nat)

  /** Reading records one after another until nothing is left. */
  ghost function ScanWith(read: Reader, size: nat, pos: nat): seq<Record>
    decreases size - pos
  {
    var (r, next) := read(pos);
    if r.None? || next <= pos || next > size then [] else [r.value] + ScanWith(read, size, next)
  }

  /** The plain forward scan the cached reads must agree with. */
  ghost function Scan(file: seq<byte>, pos: nat): seq<Record>
  {
    ScanWith(p => ReadRecord(file, p), |file|, pos)
  }

  /** One read at the offset of record `k` yields it and stops at the next offset. */
  ghost predicate ReadsAt(read: Reader, size: nat, rs: seq<Record>, k: nat)
    requires k < |rs|
  {
    read(Offset(rs, k)) == (Some(rs[k]), Offset(rs, k + 1)) && Offset(rs, k + 1) <= size
  }

  lemma {:induction false} ScanAlong(read: Reader, size: nat, rs: seq<Record>, i: nat)
    requires i <= |rs| && read(Offset(rs, |rs|)).0.None?
    requires forall k :: 0 <= k < |rs| ==> ReadsAt(read, size, rs, k)
    ensures ScanWith(read, size, Offset(rs, i)) == rs[i..]
    decreases |rs| - i
  {
    if i < |rs| {
      assert ReadsAt(read, size, rs, i);
      ScanAlong(read, size, rs, i + 1);
      assert rs[i..] == [rs[i]] + rs[i + 1..];
    }
  }

  lemma {:induction false} NothingAtEnd(file: seq<byte>)
    ensures ReadRecord(file, |file|).0.None?
  {
  }

  /** From the offset of any record, a plain forward scan of the file finds exactly the
      records from there on. */
  lemma {:induction false} ScanFindsEveryRecord(rs: seq<Record>, i: nat)
    requires Fits(rs) && i <= |rs|
    ensures Scan(Bytes(rs), Offset(rs, i)) == rs[i..]
  {
    var file := Bytes(rs);
    var read: Reader := p => ReadRecord(file, p);
    forall k | 0 <= k < |rs| ensures ReadsAt(read, |file|, rs, k) {
      RecordAtOffset(rs, k);
    }
    BytesGrow(rs, i);
    NothingAtEnd(file);
    ScanAlong(read, |file|, rs, i);
    assert Scan(file, Offset(rs, i)) == ScanWith(read, |file|, Offset(rs, i));
  }

  // ----- LRU order -----

  /** The cached offsets are exact; `bound` limits how many there are. */
  ghost predicate CacheExact(order: seq<nat>, cache: map<nat, nat>, rs: seq<Record>, bound: nat)
    requires Fits(rs)
  {
    && Distinct(order) && |order| <= bound
    && (forall k :: k in order <==> k in cache)
    && (forall k :: k in cache ==> k <= |rs| && cache[k] == Offset(rs, k))
  }

  lemma {:induction false} TouchKeepsCacheExact(
    order: seq<nat>, cache: map<nat, nat>, rs: seq<Record>, bound: nat, idx: nat)
    requires Fits(rs) && CacheExact(order, cache, rs, bound) && idx <= |rs|
    ensures CacheExact(Remove(order, idx) + [idx], cache[idx := Offset(rs, idx)], rs, bound + 1)
    ensures idx in cache ==> CacheExact(Remove(order, idx) + [idx], cache, rs, bound)
  {
    RemoveKeepsDistinct(order, idx);
    MoveToEndKeepsDistinct(order, idx);
    forall k ensures k in Remove(order, idx) + [idx] <==> k in order || k == idx {
      RemoveMembers(order, idx, k);
    }
  }

  lemma {:induction false} EvictKeepsCacheExact(order: seq<nat>, cache: map<nat, nat>, rs: seq<Record>, bound: nat)
    requires Fits(rs) && CacheExact(order, cache, rs, bound + 1) && order != []
    ensures CacheExact(order[1..], cache - {order[0]}, rs, bound)
  {
    assert order == [order[0]] + order[1..];
  }

  /** The order after an index has been cached: moved or added to the end, and the oldest
      entry gone if there are too many. */
  function Touched(order: seq<nat>, idx: nat): seq<nat>
  {
    var moved := Remove(order, idx) + [idx];
    if |moved| > OFFSET_CACHE_SIZE then moved[1..] else moved
  }

  /** The offsets after an index has been cached. */
  function Put(order: seq<nat>, cache: map<nat, nat>, idx: nat, offset: nat): map<nat, nat>
  {
    var moved := Remove(order, idx) + [idx];
    if |moved| > OFFSET_CACHE_SIZE then cache[idx := offset] - {moved[0]} else cache[idx := offset]
  }

  lemma {:induction false} PutKeepsCacheExact(order: seq<nat>, cache: map<nat, nat>, rs: seq<Record>, idx: nat)
    requires Fits(rs) && CacheExact(order, cache, rs, OFFSET_CACHE_SIZE) && idx <= |rs|
    ensures CacheExact(Touched(order, idx), Put(order, cache, idx, Offset(rs, idx)), rs, OFFSET_CACHE_SIZE)
    ensures idx in Put(order, cache, idx, Offset(rs, idx))
  {
    var moved := Remove(order, idx) + [idx];
    TouchKeepsCacheExact(order, cache, rs, OFFSET_CACHE_SIZE, idx);
    if |moved| > OFFSET_CACHE_SIZE {
      EvictKeepsCacheExact(moved, cache[idx := Offset(rs, idx)], rs, OFFSET_CACHE_SIZE);
      assert moved[1..][|moved| - 2] == idx;
    }
  }

  /** A hit only moves the index to the end. */
  lemma {:induction false} HitIsPut(order: seq<nat>, cache: map<nat, nat>, rs: seq<Record>, idx: nat)
    requires Fits(rs) && CacheExact(order, cache, rs, OFFSET_CACHE_SIZE) && idx in cache
    ensures Touched(order, idx) == Remove(order, idx) + [idx] && Put(order, cache, idx, cache[idx]) == cache
  {
    RemoveKeepsDistinct(order, idx);
  }

  // ----- where a seek starts -----

  /** The index the loop of `_seek_to` leaves selected: the most recently used below the
      target, or 0. */
  function LastBelow(order: seq<nat>, target: nat): nat
  {
    if order == [] then 0
    else if order[|order| - 1] < target then order[|order| - 1]
    else LastBelow(order[..|order| - 1], target)
  }

  lemma {:induction false} LastBelowIsCached(order: seq<nat>, target: nat)
    ensures LastBelow(order, target) <= target
    ensures LastBelow(order, target) != 0 ==> LastBelow(order, target) in order && LastBelow(order, target) < target
  {
    if order != [] && order[|order| - 1] >= target {
      LastBelowIsCached(order[..|order| - 1], target);
      assert order == order[..|order| - 1] + [order[|order| - 1]];
    }
  }

  /** `idx` is what the comment in `_seek_to` asks for: no cached index below the target
      is higher. */
  ghost predicate IsHighestBelow(order: seq<nat>, target: nat, idx: nat)
  {
    forall k :: k in order && k < target ==> k <= idx
  }

  /** The `p`-th entry is the most recently used one below the target. */
  ghost predicate LatestBelow(order: seq<nat>, target: nat, p: nat)
  {
    p < |order| && order[p] < target && forall j :: p < j < |order| ==> order[j] >= target
  }

  lemma {:induction false} LastBelowIsLatest(order: seq<nat>, target: nat, p: nat)
    requires LatestBelow(order, target, p)
    ensures LastBelow(order, target) == order[p]
  {
    if p < |order| - 1 {
      LastBelowIsLatest(order[..|order| - 1], target, p);
    }
  }

  lemma {:induction false} SomeLatestBelow(order: seq<nat>, target: nat, i: nat) returns (p: nat)
    requires i < |order| && order[i] < target
    ensures LatestBelow(order, target, p) && i <= p
  {
    p := i;
    for j := i + 1 to |order|
      invariant i <= p < j && order[p] < target && forall k :: p < k < j ==> order[k] >= target
    {
      if order[j] < target {
        p := j;
      }
    }
  }

  lemma {:induction false} LatestIsHighestExactly(order: seq<nat>, target: nat, p: nat)
    requires LatestBelow(order, target, p)
    ensures IsHighestBelow(order, target, order[p]) <==>
            forall j :: 0 <= j < p && order[j] < target ==> order[j] <= order[p]
  {
    assert forall j :: 0 <= j < |order| ==> order[j] in order;
  }

  lemma {:induction false} OnlyOneLatest(order: seq<nat>, target: nat, p: nat, q: nat)
    requires LatestBelow(order, target, p) && LatestBelow(order, target, q)
    ensures p == q
  {
  }

  /** No entry used earlier than the most recently used one below the target is higher
      and still below the target. */
  ghost predicate NoneHigherBefore(order: seq<nat>, target: nat)
  {
    forall p: nat :: LatestBelow(order, target, p) ==>
      forall j :: 0 <= j < p && order[j] < target ==> order[j] <= order[p]
  }

  /** The loop finds the highest cached index below the target exactly then. */
  lemma {:induction false} ScanStartsAtHighestExactly(order: seq<nat>, target: nat)
    ensures IsHighestBelow(order, target, LastBelow(order, target)) <==> NoneHigherBefore(order, target)
  {
    if i: nat :| i < |order| && order[i] < target {
      var p := SomeLatestBelow(order, target, i);
      LastBelowIsLatest(order, target, p);
      LatestIsHighestExactly(order, target, p);
      forall q: nat | LatestBelow(order, target, q) ensures q == p {
        OnlyOneLatest(order, target, p, q);
      }
    }
  }

  /** In a log of more than eight events, reading one event from 5 and then one from 3
      leaves this order, and a seek to 8 then starts at 4 although 6 is cached. */
  lemma {:induction false} ScanStartsBelowHighest(count: nat)
    requires count > 8
    ensures OrderAfterRead(OrderAfterRead([], count, 5, 6), count, 3, 4) == [5, 6, 3, 4]
    ensures LastBelow([5, 6, 3, 4], 8) == 4 && !IsHighestBelow([5, 6, 3, 4], 8, LastBelow([5, 6, 3, 4], 8))
  {
    TouchedNew([], 5);
    TouchedNew([5], 6);
    TouchedNew([5, 6], 3);
    TouchedNew([5, 6, 3], 4);
    assert [] + [5] == [5] && [5] + [6] == [5, 6] && [5, 6] + [3] == [5, 6, 3] && [5, 6, 3] + [4] == [5, 6, 3, 4];
    assert Touched([], 5) == [5] && Touched([5], 6) == [5, 6];
    assert OrderAfterRead([], count, 5, 6) == [5, 6];
    assert 6 in [5, 6, 3, 4];
  }

  lemma {:induction false} TouchedNew(order: seq<nat>, idx: nat)
    requires idx !in order && |order| < OFFSET_CACHE_SIZE
    ensures Touched(order, idx) == order + [idx]
  {
    RemoveAbsent(order, idx);
  }

  lemma {:induction false} RemoveAbsent(order: seq<nat>, idx: nat)
    requires idx !in order
    ensures Remove(order, idx) == order
  {
    if order != [] {
      assert order == [order[0]] + order[1..];
      RemoveAbsent(order[1..], idx);
    }
  }

  // ----- the log -----

  function Range<E>(events: seq<E>, start: int, end: int): seq<E>
  {
    var stop := if end < |events| then end else |events|;
    if start < 0 || stop < 0 || start >= stop then [] else events[start..stop]
  }

  /** What a range read does to the order: its start and, unless it ends the log, its end
      are touched. */
  function OrderAfterRead(order: seq<nat>, count: nat, start: int, end: int): seq<nat>
  {
    var stop := if end < count then end else count;
    if start < 0 || stop < 0 || start >= stop then order
    else if stop < count then Touched(Touched(order, start), stop)
    else Touched(order, start)
  }

  class Log<E> {
    /** Serialisation is a parameter: an encoder and its decoder. */
    const encode: E -> Record
    const decode: Record -> E

    var file: seq<byte>
    var count: nat
    /** The ordered dictionary of cached offsets, least recently used first. */
    var cacheOrder: seq<nat>
    var cache: map<nat, nat>

    ghost var events: seq<E>
    ghost var records: seq<Record>

    ghost predicate Valid()
      reads this
    {
      && count == |events| == |records|
      && (forall i :: 0 <= i < count ==> decode(records[i]) == events[i])
      && Fits(records) && file == Bytes(records)
      && CacheExact(cacheOrder, cache, records, OFFSET_CACHE_SIZE)
    }

    constructor (encode: E -> Record, decode: Record -> E)
      ensures Valid() && events == [] && this.encode == encode && this.decode == decode
    {
      this.encode, this.decode := encode, decode;
      file, count, cacheOrder, cache, events, records := [], 0, [], map[], [], [];
    }

    method MoveToEnd(idx: nat)
      requires Valid() && idx in cache
      modifies this`cacheOrder
      ensures Valid() && cacheOrder == Remove(old(cacheOrder), idx) + [idx]
    {
      TouchKeepsCacheExact(cacheOrder, cache, records, OFFSET_CACHE_SIZE, idx);
      cacheOrder := Remove(cacheOrder, idx) + [idx];
    }

    method CacheOffset(idx: nat, offset: nat)
      requires Valid() && idx <= count && offset == Offset(records, idx)
      modifies this`cacheOrder, this`cache
      ensures Valid() && idx in cache
      ensures cacheOrder == Touched(old(cacheOrder), idx) && cache == Put(old(cacheOrder), old(cache), idx, offset)
    {
      PutKeepsCacheExact(cacheOrder, cache, records, idx);
      cache := cache[idx := offset];
      cacheOrder := Remove(cacheOrder, idx) + [idx];
      if |cacheOrder| > OFFSET_CACHE_SIZE {
        cacheOrder, cache := cacheOrder[1..], cache - {cacheOrder[0]};
      }
    }

    /** The position reached is exact whichever smaller index the scan started from. */
    method SeekTo(target: nat) returns (pos: nat)
      requires Valid() && target < count
      modifies this`cacheOrder, this`cache
      ensures Valid() && target in cache
      ensures pos == Offset(records, target)
      ensures cacheOrder == Touched(old(cacheOrder), target) && cache == Put(old(cacheOrder), old(cache), target, pos)
    {
      if target in cache {
        HitIsPut(cacheOrder, cache, records, target);
        MoveToEnd(target);
        return cache[target];
      }
      var scanFrom: nat;
      scanFrom, pos := ScanStart(target);
      pos := SkipForward(scanFrom, pos, target);
      CacheOffset(target, pos);
    }

    method SkipForward(from: nat, at: nat, target: nat) returns (pos: nat)
      requires Valid() && from <= target <= count && at == Offset(records, from)
      ensures pos == Offset(records, target)
    {
      pos := at;
      for k := from to target
        invariant pos == Offset(records, k)
      {
        RecordAtOffset(records, k);
        pos := SkipRecord(file, pos).1;
      }
    }

    /** The last cached index below the target in LRU order, not always the highest. */
    method ScanStart(target: nat) returns (idx: nat, offset: nat)
      requires Valid()
      ensures idx == LastBelow(cacheOrder, target) && idx <= target && (idx != 0 ==> idx in cache && idx < target)
      ensures idx <= count && offset == Offset(records, idx)
    {
      idx, offset := 0, 0;
      for i := 0 to |cacheOrder|
        invariant idx == LastBelow(cacheOrder[..i], target)
        invariant idx <= target && idx <= count && offset == Offset(records, idx)
        invariant idx != 0 ==> idx in cache && idx < target
      {
        assert cacheOrder[..i + 1][..i] == cacheOrder[..i];
        var cached := cacheOrder[i];
        if cached < target {
          idx, offset := cached, cache[cached];
        }
      }
      assert cacheOrder[..|cacheOrder|] == cacheOrder;
    }

    /** `ok` is false, and nothing is written, when the length does not fit the header. */
    method Append(e: E) returns (ok: bool)
      requires Valid() && decode(encode(e)) == e
      modifies this`file, this`count, this`events, this`records
      ensures Valid() && ok == (|encode(e)| < RECORD_LIMIT)
      ensures events == if ok then old(events) + [e] else old(events)
    {
      var packed := encode(e);
      if |packed| >= RECORD_LIMIT {
        return false;
      }
      forall k | 0 <= k <= |records|
        ensures Offset(records + [packed], k) == Offset(records, k)
      {
        OffsetsSurviveAppend(records, packed, k);
      }
      BytesAppend(records, packed);
      file := file + PackHeader(|packed|) + packed;
      count := count + 1;
      events, records := events + [e], records + [packed];
      return true;
    }

    /** Reads `n` records from `start`, stopping early at end of file. */
    method ReadFrom(start: nat, at: nat, n: nat) returns (out: seq<E>, pos: nat)
      requires Valid() && start + n <= count && at == Offset(records, start)
      ensures out == events[start..start + n] && pos == Offset(records, start + n)
    {
      out, pos := [], at;
      for k := 0 to n
        invariant out == events[start..start + k] && pos == Offset(records, start + k)
      {
        var r;
        r, pos := ReadOne(start + k, pos);
        if r.None? {
          break;
        }
        out := out + [r.value];
      }
    }

    method ReadOne(k: nat, at: nat) returns (e: Option<E>, pos: nat)
      requires Valid() && k < count && at == Offset(records, k)
      ensures e == Some(events[k]) && pos == Offset(records, k + 1)
    {
      RecordAtOffset(records, k);
      var (r, next) := ReadRecord(file, at);
      return if r.None? then None else Some(decode(r.value)), next;
    }

    /** A range read is the slice of the log, whatever has been cached or evicted. */
    method ReadRange(start: int, end: int) returns (out: seq<E>)
      requires Valid()
      modifies this`cacheOrder, this`cache
      ensures Valid()
      ensures out == Range(events, start, end)
      ensures cacheOrder == OrderAfterRead(old(cacheOrder), count, start, end)
    {
      var stop := if end < count then end else count;
      if start < 0 || stop < 0 || start >= stop {
        return [];
      }
      out := ReadBetween(start, stop);
    }

    method ReadBetween(start: nat, stop: nat) returns (out: seq<E>)
      requires Valid() && start < stop <= count
      modifies this`cacheOrder, this`cache
      ensures Valid() && out == events[start..stop]
      ensures var touched := Touched(old(cacheOrder), start);
              cacheOrder == if stop < count then Touched(touched, stop) else touched
    {
      var pos := SeekTo(start);
      out, pos := ReadFrom(start, pos, stop - start);
      if stop < count {
        CacheOffset(stop, pos);
      }
    }

    method ReadAll() returns (out: seq<E>)
      requires Valid()
      ensures out == events
    {
      var pos: nat;
      out, pos := ReadFrom(0, 0, count);
    }
  }
}
