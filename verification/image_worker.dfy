/** The worker's side of image transfer: chunk buffers per command, the image cache,
    and the images a text task is started with (src/exo/worker/main.py). */
module ImageWorker {
  import opened Common
  import opened ImageTransfer

  // ----- what the buffers mean -----

  /** The data of one image in a buffer, from chunks below index `n`, in index order. */
  ghost function Assemble(m: map<nat, Chunk>, image: nat, n: nat): string
  {
    if n == 0 then ""
    else Assemble(m, image, n - 1) + if n - 1 in m && m[n - 1].image == image then m[n - 1].data else ""
  }

  ghost function Above(keys: set<nat>): (n: nat)
    ensures forall k :: k in keys ==> k < n
  {
    if keys == {} then 0
    else
      var k :| k in keys;
      var n := Above(keys - {k});
      assert forall j :: j in keys ==> j == k || j in keys - {k};
      if k < n then n else k + 1
  }

  ghost function Places(m: map<nat, Chunk>): set<nat>
  {
    set k | k in m :: m[k].image
  }

  ghost function Assembled(m: map<nat, Chunk>): set<Image>
  {
    set i | i in Places(m) :: Assemble(m, i, Above(m.Keys))
  }

  lemma {:induction false} AssembleBeyond(m: map<nat, Chunk>, image: nat, n: nat, more: nat)
    requires n <= more && forall k :: k in m ==> k < n
    ensures Assemble(m, image, more) == Assemble(m, image, n)
  {
    if n < more {
      AssembleBeyond(m, image, n, more - 1);
    }
  }

  // ----- the worker as a value -----

  datatype Store = Store(buffer: map<CommandId, map<nat, Chunk>>, counts: map<CommandId, nat>, cached: set<Image>) {
    function Buffered(c: CommandId): map<nat, Chunk>
    {
      if c in buffer then buffer[c] else map[]
    }

    ghost function Receive(ch: Chunk): Store
      requires buffer.Keys == counts.Keys
    {
      var m: map<nat, Chunk> := Buffered(ch.command)[ch.index := ch];
      var total := if ch.command in buffer then counts[ch.command] else ch.total;
      Store(buffer[ch.command := m], counts[ch.command := total],
            if |m| == total then cached + Assembled(m) else cached)
    }

    function Forget(c: CommandId): Store
    {
      this.(buffer := buffer - {c}, counts := counts - {c})
    }
  }

  // ----- listing and sorting -----

  ghost predicate Increasing(s: seq<nat>)
  {
    forall i, j :: 0 <= i < j < |s| ==> s[i] < s[j]
  }

  /** The keys of a dictionary in some order. */
  method KeysOf<V>(m: map<nat, V>) returns (ks: seq<nat>)
    ensures Distinct(ks) && forall k :: k in ks <==> k in m
  {
    ks := [];
    var rest := m.Keys;
    while rest != {}
      invariant Distinct(ks) && rest <= m.Keys
      invariant forall k :: k in ks <==> k in m.Keys - rest
      decreases rest
    {
      var k :| k in rest;
      assert k !in ks && forall i :: 0 <= i < |ks| ==> ks[i] in ks;
      ks, rest := ks + [k], rest - {k};
    }
  }

  method Insert(s: seq<nat>, x: nat) returns (r: seq<nat>)
    requires Increasing(s) && x !in s
    ensures Increasing(r) && forall k :: k in r <==> k in s || k == x
  {
    var p := |s|;
    while p > 0 && x < s[p - 1]
      invariant 0 <= p <= |s| && forall i :: p <= i < |s| ==> x < s[i]
    {
      p := p - 1;
    }
    assert p > 0 ==> s[p - 1] in s;
    assert s == s[..p] + s[p..];
    InsertedBetween(s[..p], x, s[p..]);
    r := s[..p] + [x] + s[p..];
  }

  lemma {:induction false} InsertedBetween(low: seq<nat>, x: nat, high: seq<nat>)
    requires Increasing(low) && Increasing(high)
    requires (forall i :: 0 <= i < |low| ==> low[i] < x) && (forall i :: 0 <= i < |high| ==> x < high[i])
    ensures Increasing(low + [x] + high)
    ensures forall k :: k in low + [x] + high <==> k in low + high || k == x
  {
    var r := low + [x] + high;
    forall i, j | 0 <= i < j < |r| ensures r[i] < r[j] {
      assert i < |low| ==> r[i] == low[i];
      assert j > |low| ==> r[j] == high[j - |low| - 1];
      assert i > |low| ==> r[i] == high[i - |low| - 1];
      assert j < |low| ==> r[j] == low[j];
    }
  }

  method SortByIndex(s: seq<nat>) returns (r: seq<nat>)
    requires Distinct(s)
    ensures Increasing(r) && forall k :: k in r <==> k in s
  {
    r := [];
    for i := 0 to |s|
      invariant Increasing(r) && forall k :: k in r <==> k in s[..i]
    {
      assert s[..i + 1] == s[..i] + [s[i]];
      r := Insert(r, s[i]);
    }
    assert s[..|s|] == s;
  }

  lemma {:induction false} FirstIn(s: seq<nat>)
    ensures s != [] ==> s[0] in s
  {
  }

  /** An increasing list of the numbers below `n` is 0, 1, 2 and so on. */
  lemma {:induction false} IncreasingRange(s: seq<nat>, n: nat)
    requires Increasing(s) && forall k: nat :: k in s <==> k < n
    ensures |s| == n && forall i :: 0 <= i < n ==> s[i] == i
  {
    if n == 0 {
      FirstIn(s);
    } else {
      assert n - 1 in s;
      LargestIsLast(s, n);
      var front := s[..|s| - 1];
      forall k: nat ensures k in front <==> k < n - 1 {
        assert k in s <==> k < n;
      }
      IncreasingRange(front, n - 1);
    }
  }

  lemma {:induction false} LargestIsLast(s: seq<nat>, n: nat)
    requires n > 0 && Increasing(s) && (forall k :: k in s ==> k < n) && n - 1 in s
    ensures s != [] && s[|s| - 1] == n - 1
    ensures forall k :: k in s[..|s| - 1] <==> k in s && k < n - 1
  {
    var last := |s| - 1;
    assert s[last] in s;
    assert s == s[..last] + [s[last]];
  }

  ghost function JoinAt(m: map<nat, Chunk>, ks: seq<nat>): string
    requires forall k :: k in ks ==> k in m
  {
    if ks == [] then "" else JoinAt(m, ks[..|ks| - 1]) + m[ks[|ks| - 1]].data
  }

  /** `ks` lists the chunks of an image below index `n`. */
  ghost predicate ChunkKeys(m: map<nat, Chunk>, image: nat, ks: seq<nat>, n: nat)
  {
    Increasing(ks) && forall k :: k in ks <==> k in m && k < n && m[k].image == image
  }

  lemma {:induction false} ChunkKeysLast(m: map<nat, Chunk>, image: nat, ks: seq<nat>, n: nat)
    requires n > 0 && ChunkKeys(m, image, ks, n) && n - 1 in ks
    ensures ks != [] && ks[|ks| - 1] == n - 1 && n - 1 in m && m[n - 1].image == image
    ensures ChunkKeys(m, image, ks[..|ks| - 1], n - 1)
  {
    LargestIsLast(ks, n);
  }

  lemma {:induction false} ChunkKeysSkip(m: map<nat, Chunk>, image: nat, ks: seq<nat>, n: nat)
    requires n > 0 && ChunkKeys(m, image, ks, n) && n - 1 !in ks
    ensures !(n - 1 in m && m[n - 1].image == image) && ChunkKeys(m, image, ks, n - 1)
  {
  }

  lemma {:induction false} NoChunkKeys(m: map<nat, Chunk>, image: nat, ks: seq<nat>)
    requires ChunkKeys(m, image, ks, 0)
    ensures ks == []
  {
    FirstIn(ks);
  }

  /** Joining the chunks of an image in sorted order assembles it. */
  lemma {:induction false} SortedJoin(m: map<nat, Chunk>, image: nat, ks: seq<nat>, n: nat)
    requires ChunkKeys(m, image, ks, n)
    ensures JoinAt(m, ks) == Assemble(m, image, n)
  {
    if n == 0 {
      NoChunkKeys(m, image, ks);
    } else if n - 1 in ks {
      ChunkKeysLast(m, image, ks, n);
      SortedJoin(m, image, ks[..|ks| - 1], n - 1);
    } else {
      ChunkKeysSkip(m, image, ks, n);
      SortedJoin(m, image, ks, n - 1);
    }
  }

  // ----- grouping -----

  ghost function KeysAt(m: map<nat, Chunk>, ks: seq<nat>, image: nat): (r: seq<nat>)
    requires forall k :: k in ks ==> k in m
    ensures forall k :: k in r <==> k in ks && m[k].image == image
  {
    if ks == [] then []
    else
      var n := |ks| - 1;
      var before := KeysAt(m, ks[..n], image);
      assert ks == ks[..n] + [ks[n]];
      if m[ks[n]].image == image then before + [ks[n]] else before
  }

  lemma {:induction false} KeysAtDistinct(m: map<nat, Chunk>, ks: seq<nat>, image: nat)
    requires Distinct(ks) && forall k :: k in ks ==> k in m
    ensures Distinct(KeysAt(m, ks, image))
  {
    if ks != [] {
      KeysAtDistinct(m, ks[..|ks| - 1], image);
    }
  }

  /** `per_image`: the places with chunks, and the keys of each in buffer order. */
  method GroupByImage(m: map<nat, Chunk>, ks: seq<nat>) returns (places: seq<nat>, groups: map<nat, seq<nat>>)
    requires forall k :: k in ks ==> k in m
    ensures forall i :: i in places <==> i in groups
    ensures forall i :: i in groups <==> KeysAt(m, ks, i) != []
    ensures forall i :: i in groups ==> groups[i] == KeysAt(m, ks, i)
  {
    places, groups := [], map[];
    for j := 0 to |ks|
      invariant forall i :: i in places <==> i in groups
      invariant forall i :: i in groups <==> KeysAt(m, ks[..j], i) != []
      invariant forall i :: i in groups ==> groups[i] == KeysAt(m, ks[..j], i)
    {
      assert ks[..j + 1][..j] == ks[..j];
      var i := m[ks[j]].image;
      if i !in groups {
        places := places + [i];
        groups := groups[i := []];
      }
      groups := groups[i := groups[i] + [ks[j]]];
    }
    assert ks[..|ks|] == ks;
  }

  method JoinData(m: map<nat, Chunk>, ks: seq<nat>) returns (data: string)
    requires forall k :: k in ks ==> k in m
    ensures data == JoinAt(m, ks)
  {
    data := "";
    for j := 0 to |ks|
      invariant data == JoinAt(m, ks[..j])
    {
      assert ks[..j + 1][..j] == ks[..j];
      data := data + m[ks[j]].data;
    }
    assert ks[..|ks|] == ks;
  }

  method AssembleImage(m: map<nat, Chunk>, image: nat, group: seq<nat>) returns (data: string)
    requires Distinct(group) && forall k :: k in group <==> k in m && m[k].image == image
    ensures data == Assemble(m, image, Above(m.Keys))
  {
    var sorted := SortByIndex(group);
    data := JoinData(m, sorted);
    SortedJoin(m, image, sorted, Above(m.Keys));
  }

  /** All images of a complete buffer. */
  method AssembleAll(m: map<nat, Chunk>) returns (images: seq<Image>)
    ensures (set x | x in images) == Assembled(m)
  {
    var ks := KeysOf(m);
    var places, groups := GroupByImage(m, ks);
    images := [];
    for j := 0 to |places|
      invariant |images| == j && forall a :: 0 <= a < j ==> images[a] == Assemble(m, places[a], Above(m.Keys))
    {
      KeysAtDistinct(m, ks, places[j]);
      var data := AssembleImage(m, places[j], groups[places[j]]);
      images := images + [data];
    }
    PlacesListed(m, ks, places);
    ImagesListed(m, places, images);
  }

  lemma {:induction false} ImagesListed(m: map<nat, Chunk>, places: seq<nat>, images: seq<Image>)
    requires |images| == |places| && forall a :: 0 <= a < |places| ==>
               images[a] == Assemble(m, places[a], Above(m.Keys))
    requires forall i :: i in places <==> i in Places(m)
    ensures (set x | x in images) == Assembled(m)
  {
    forall x | x in images ensures x in Assembled(m) {
      var a :| 0 <= a < |images| && images[a] == x;
      assert places[a] in places;
    }
    forall i | i in Places(m) ensures Assemble(m, i, Above(m.Keys)) in images {
      var a :| 0 <= a < |places| && places[a] == i;
      assert images[a] in images;
    }
  }

  lemma {:induction false} PlacesListed(m: map<nat, Chunk>, ks: seq<nat>, places: seq<nat>)
    requires forall k :: k in ks <==> k in m
    requires forall i :: i in places <==> KeysAt(m, ks, i) != []
    ensures forall i :: i in places <==> i in Places(m)
  {
    forall i ensures KeysAt(m, ks, i) != [] <==> i in Places(m) {
      if KeysAt(m, ks, i) != [] {
        assert KeysAt(m, ks, i)[0] in KeysAt(m, ks, i);
      }
      if i in Places(m) {
        var k :| k in m && m[k].image == i;
        assert k in KeysAt(m, ks, i);
      }
    }
  }

  // ----- the object -----

  class Worker {
    const hash: Hasher
    var buffer: map<CommandId, map<nat, Chunk>>
    var counts: map<CommandId, nat>
    var cache: map<Hash, Image>

    /** Every image is cached under its own hash. */
    ghost predicate Valid()
      reads this
    {
      buffer.Keys == counts.Keys && forall h :: h in cache ==> hash(cache[h]) == h
    }

    ghost function Abs(): Store
      reads this
    {
      Store(buffer, counts, cache.Values)
    }

    constructor (hash: Hasher)
      ensures Valid() && this.hash == hash && Abs() == Store(map[], map[], {})
    {
      this.hash, buffer, counts, cache := hash, map[], map[], map[];
    }

    /** The part of `_event_applier` that handles an input chunk. */
    method Receive(ch: Chunk)
      requires Valid() && Injective(hash)
      modifies this
      ensures Valid() && Abs() == old(Abs()).Receive(ch)
    {
      var m := StoreChunk(ch);
      if |m| == counts[ch.command] {
        var images := AssembleAll(m);
        CacheImages(images);
      }
    }

    method StoreChunk(ch: Chunk) returns (m: map<nat, Chunk>)
      requires Valid()
      modifies this`buffer, this`counts
      ensures Valid() && m == old(Abs()).Buffered(ch.command)[ch.index := ch] && buffer == old(buffer)[ch.command := m]
      ensures counts
              == old(counts)[ch.command := if ch.command in old(buffer) then old(counts)[ch.command] else ch.total]
    {
      if ch.command !in buffer {
        buffer := buffer[ch.command := map[]];
        counts := counts[ch.command := ch.total];
      }
      m := buffer[ch.command][ch.index := ch];
      buffer := buffer[ch.command := m];
    }

    method CacheImages(images: seq<Image>)
      requires Valid() && Injective(hash)
      modifies this`cache
      ensures Valid() && cache.Values == old(cache).Values + set x | x in images
    {
      for j := 0 to |images|
        invariant Valid()
        invariant cache.Values == old(cache).Values + set x | x in images[..j]
      {
        assert images[..j + 1] == images[..j] + [images[j]];
        ValuesAfterPut(hash, cache, images[j]);
        cache := cache[hash(images[j]) := images[j]];
      }
      assert images[..|images|] == images;
    }

    /** The planner's guard on a text task with images, and its start: nothing happens
        while an image is missing; otherwise the images in index order, and the buffers
        of the command are dropped. */
    method Dispatch(command: CommandId, hashes: map<nat, Hash>) returns (r: Option<seq<Image>>)
      requires Valid() && Injective(hash)
      modifies this
      ensures Valid() && cache == old(cache)
      ensures r.Some? <==> forall i :: i in hashes ==> hashes[i] in cache
      ensures Abs() == if r.Some? then old(Abs()).Forget(command) else old(Abs())
      ensures forall images :: r.Some? && hashes == HashesOf(hash, images) ==> r.value == images
      ensures forall images :: hashes == HashesOf(hash, images) ==>
                (r.Some? <==> forall i :: 0 <= i < |images| ==> images[i] in old(Abs()).cached)
    {
      var ready := AllCached(hashes);
      if ready {
        var images := Resolve(hashes);
        buffer, counts := buffer - {command}, counts - {command};
        r := Some(images);
      } else {
        r := None;
      }
      forall images | hashes == HashesOf(hash, images)
        ensures r.Some? <==> forall i :: 0 <= i < |images| ==> images[i] in cache.Values
      {
        HashesCached(hash, cache, images);
      }
    }

    method AllCached(hashes: map<nat, Hash>) returns (ready: bool)
      ensures ready <==> forall i :: i in hashes ==> hashes[i] in cache
    {
      var keys := KeysOf(hashes);
      for j := 0 to |keys|
        invariant forall k :: k in keys[..j] ==> hashes[k] in cache
      {
        assert keys[..j + 1] == keys[..j] + [keys[j]];
        if hashes[keys[j]] !in cache {
          return false;
        }
      }
      assert keys[..|keys|] == keys;
      return true;
    }

    method Resolve(hashes: map<nat, Hash>) returns (images: seq<Image>)
      requires Valid() && Injective(hash) && forall i :: i in hashes ==> hashes[i] in cache
      ensures forall sent :: hashes == HashesOf(hash, sent) ==> images == sent
    {
      var keys := KeysOf(hashes);
      var ks := SortByIndex(keys);
      images := Lookup(hashes, ks);
      forall sent | hashes == HashesOf(hash, sent) ensures images == sent {
        ResolvedInOrder(hash, cache, sent, ks, images);
      }
    }

    method Lookup(hashes: map<nat, Hash>, ks: seq<nat>) returns (images: seq<Image>)
      requires forall a :: 0 <= a < |ks| ==> ks[a] in hashes && hashes[ks[a]] in cache
      ensures |images| == |ks| && forall a :: 0 <= a < |ks| ==> images[a] == cache[hashes[ks[a]]]
    {
      images := [];
      for j := 0 to |ks|
        invariant |images| == j && forall a :: 0 <= a < j ==> images[a] == cache[hashes[ks[a]]]
      {
        images := images + [cache[hashes[ks[j]]]];
      }
    }
  }

  /** With an injective hash, being cached and having a cached hash are the same. */
  lemma {:induction false} CachedByHash(hash: Hasher, cache: map<Hash, Image>, x: Image)
    requires Injective(hash) && forall h :: h in cache ==> hash(cache[h]) == h
    ensures hash(x) in cache <==> x in cache.Values
  {
    if hash(x) in cache {
      assert cache[hash(x)] == x;
    }
  }

  lemma {:induction false} HashesCached(hash: Hasher, cache: map<Hash, Image>, images: seq<Image>)
    requires Injective(hash) && forall h :: h in cache ==> hash(cache[h]) == h
    ensures (forall i :: i in HashesOf(hash, images) ==> HashesOf(hash, images)[i] in cache)
            <==> (forall i :: 0 <= i < |images| ==> images[i] in cache.Values)
  {
    var hashes := HashesOf(hash, images);
    forall i | 0 <= i < |images| ensures i in hashes && (hashes[i] in cache <==> images[i] in cache.Values) {
      CachedByHash(hash, cache, images[i]);
    }
  }

  /** Looking up the hashes of some images in sorted order gives these images. */
  lemma {:induction false} ResolvedInOrder(
    hash: Hasher, cache: map<Hash, Image>, sent: seq<Image>, ks: seq<nat>, images: seq<Image>)
    requires Injective(hash) && Increasing(ks) && |images| == |ks|
    requires forall h :: h in cache ==> hash(cache[h]) == h
    requires forall k :: k in ks <==> k in HashesOf(hash, sent)
    requires forall a :: 0 <= a < |ks| ==> ks[a] in HashesOf(hash, sent) && HashesOf(hash, sent)[ks[a]] in cache
    requires forall a :: 0 <= a < |ks| ==> images[a] == cache[HashesOf(hash, sent)[ks[a]]]
    ensures images == sent
  {
    IncreasingRange(ks, |sent|);
    forall i | 0 <= i < |sent| ensures images[i] == sent[i] {
      assert hash(images[i]) == hash(sent[i]);
    }
  }

  lemma {:induction false} ValuesAfterPut(hash: Hasher, cache: map<Hash, Image>, x: Image)
    requires Injective(hash) && forall h :: h in cache ==> hash(cache[h]) == h
    ensures cache[hash(x) := x].Values == cache.Values + {x}
  {
    var after := cache[hash(x) := x];
    forall v | v in cache.Values ensures v in after.Values {
      var h :| h in cache && cache[h] == v;
      assert after[h] == v;
    }
    assert after[hash(x)] == x;
  }
}
