/** Requests with images from several APIs, chunks arriving in any order and any number
    of times, and a worker that starts a request once all its images are cached. */
module ImageDelivery {
  import opened ImageTransfer
  import opened ImageWorker

  type ApiId = nat

  datatype Request = Request(images: seq<Image>, batch: Batch)

  datatype World = World(
    sent: map<ApiId, set<Hash>>,
    requests: map<CommandId, Request>,
    delivered: set<(CommandId, nat)>,
    dispatched: set<CommandId>,
    store: Store)

  datatype Step =
    | Send(api: ApiId, command: CommandId, images: seq<Image>)
    | Deliver(command: CommandId, index: nat)
    | Dispatch(command: CommandId)

  function Sent(w: World, api: ApiId): set<Hash>
  {
    if api in w.sent then w.sent[api] else {}
  }

  function ChunksOf(c: CommandId, r: Request): seq<Chunk>
  {
    Numbered(c, CutAll(r.batch))
  }

  /** The planner starts the request: every image is cached. */
  ghost predicate Ready(s: Store, r: Request)
  {
    forall i :: 0 <= i < |r.images| ==> r.images[i] in s.cached
  }

  ghost predicate Enabled(w: World, s: Step)
  {
    match s
    case Send(_, c, _) => c !in w.requests
    case Deliver(c, k) => c in w.requests && k < |ChunksOf(c, w.requests[c])|
    case Dispatch(c) => c in w.requests && Ready(w.store, w.requests[c])
  }

  ghost function Do(hash: Hasher, w: World, s: Step): World
    requires Enabled(w, s) && w.store.buffer.Keys == w.store.counts.Keys
  {
    match s
    case Send(api, c, images) =>
      w.(requests := w.requests[c := Request(images, NewImages(hash, images, |images|, Sent(w, api)))],
         sent := w.sent[api := SentAfter(hash, images, |images|, Sent(w, api))])
    case Deliver(c, k) =>
      w.(delivered := w.delivered + {(c, k)}, store := w.store.Receive(ChunksOf(c, w.requests[c])[k]))
    case Dispatch(c) => w.(dispatched := w.dispatched + {c}, store := w.store.Forget(c))
  }

  ghost predicate Init(w: World)
  {
    w == World(map[], map[], {}, {}, Store(map[], map[], {}))
  }

  // ----- a complete buffer -----

  ghost predicate Holds(m: map<nat, Chunk>, chunks: seq<Chunk>)
  {
    forall k :: k in m ==> k < |chunks| && m[k] == chunks[k]
  }

  ghost function Below(n: nat): (r: set<nat>)
    ensures |r| == n && forall k :: k in r <==> 0 <= k < n
  {
    if n == 0 then {} else Below(n - 1) + {n - 1}
  }

  lemma {:induction false} SubsetOfSameSize(a: set<nat>, b: set<nat>)
    requires a <= b && |a| == |b|
    ensures a == b
  {
    assert b == a + (b - a) && |b| == |a| + |b - a|;
  }

  /** The count is reached exactly when no chunk is missing. */
  lemma {:induction false} FullExactly(m: map<nat, Chunk>, chunks: seq<Chunk>)
    requires Holds(m, chunks)
    ensures |m| == |chunks| <==> m.Keys == Below(|chunks|)
  {
    assert |m| == |m.Keys|;
    if |m| == |chunks| {
      SubsetOfSameSize(m.Keys, Below(|chunks|));
    }
  }

  lemma {:induction false} AssembleIsJoined(m: map<nat, Chunk>, c: CommandId, pieces: seq<Piece>, image: nat, n: nat)
    requires n <= |pieces| && forall k :: 0 <= k < |pieces| ==> k in m && m[k] == Numbered(c, pieces)[k]
    ensures Assemble(m, image, n) == Joined(pieces[..n], image)
  {
    if n > 0 {
      AssembleIsJoined(m, c, pieces, image, n - 1);
      assert pieces[..n][..n - 1] == pieces[..n - 1];
    }
  }

  /** The images of a batch that have content. */
  ghost function Contents(batch: Batch): set<Image>
  {
    set a | 0 <= a < |batch| && batch[a].1 != "" :: batch[a].1
  }

  lemma {:induction false} PlacesOfFull(m: map<nat, Chunk>, c: CommandId, batch: Batch, image: nat)
    requires m.Keys == Below(|CutAll(batch)|) && Holds(m, Numbered(c, CutAll(batch)))
    ensures image in Places(m) <==> HasContent(batch, image)
  {
    var pieces := CutAll(batch);
    PiecesOfBatch(batch, image);
    if HasPiece(pieces, image) {
      var k :| 0 <= k < |pieces| && pieces[k].image == image;
      assert m[k].image == image;
    }
  }

  lemma {:induction false} AssembledAt(m: map<nat, Chunk>, c: CommandId, batch: Batch, image: nat)
    requires m.Keys == Below(|CutAll(batch)|) && Holds(m, Numbered(c, CutAll(batch)))
    ensures Assemble(m, image, Above(m.Keys)) == Joined(CutAll(batch), image)
  {
    var pieces := CutAll(batch);
    AssembleIsJoined(m, c, pieces, image, |pieces|);
    assert pieces[..|pieces|] == pieces;
    assert |pieces| > 0 ==> |pieces| - 1 in m.Keys;
    AssembleBeyond(m, image, |pieces|, Above(m.Keys));
  }

  /** A complete buffer gives back the images of its batch. */
  lemma {:induction false} FullBuffer(m: map<nat, Chunk>, c: CommandId, batch: Batch)
    requires DistinctPlaces(batch) && m.Keys == Below(|CutAll(batch)|) && Holds(m, Numbered(c, CutAll(batch)))
    ensures Assembled(m) == Contents(batch)
  {
    forall x | x in Assembled(m) ensures x in Contents(batch) {
      var i :| i in Places(m) && Assemble(m, i, Above(m.Keys)) == x;
      PlacesOfFull(m, c, batch, i);
      AssembledAt(m, c, batch, i);
      var a :| 0 <= a < |batch| && batch[a].0 == i && batch[a].1 != "";
      JoinedBatch(batch, a);
    }
    forall x | x in Contents(batch) ensures x in Assembled(m) {
      var a :| 0 <= a < |batch| && batch[a].1 != "" && batch[a].1 == x;
      PlacesOfFull(m, c, batch, batch[a].0);
      AssembledAt(m, c, batch, batch[a].0);
      assert HasContent(batch, batch[a].0);
      JoinedBatch(batch, a);
    }
  }

  // ----- the invariant -----

  /** All chunks of a request have arrived. */
  ghost predicate Arrived(w: World, c: CommandId)
  {
    c in w.requests && forall k :: 0 <= k < |ChunksOf(c, w.requests[c])| ==> (c, k) in w.delivered
  }

  ghost predicate RequestOk(r: Request)
  {
    DistinctPlaces(r.batch) && forall a :: 0 <= a < |r.batch| ==> r.batch[a].1 in r.images
  }

  /** A buffer holds chunks of its command that arrived, and all of them while the
      command is not started. */
  ghost predicate BufferOk(w: World, c: CommandId)
  {
    && (c in w.store.buffer ==>
          && c in w.requests && c in w.store.counts && w.store.counts[c] == |ChunksOf(c, w.requests[c])|
          && Holds(w.store.buffer[c], ChunksOf(c, w.requests[c]))
          && forall k :: k in w.store.buffer[c] ==> (c, k) in w.delivered)
    && (c !in w.dispatched ==> forall k :: (c, k) in w.delivered ==> k in w.store.Buffered(c))
  }

  ghost predicate BuffersOk(w: World)
  {
    w.store.buffer.Keys == w.store.counts.Keys && forall c :: BufferOk(w, c)
  }

  /** Once all chunks arrived, or the request was started, its images are cached. */
  ghost predicate CacheComplete(w: World)
  {
    forall c :: c in w.requests && (c in w.dispatched || Arrived(w, c)) ==>
      Contents(w.requests[c].batch) <= w.store.cached
  }

  ghost predicate Supplied(w: World, x: Image)
  {
    exists c :: Arrived(w, c) && Carries(w.requests[c].batch, x)
  }

  ghost predicate CacheSound(w: World)
  {
    forall x :: x in w.store.cached ==> x != "" && Supplied(w, x)
  }

  /** Some request carries an image with this hash. */
  ghost predicate Carried(hash: Hasher, requests: map<CommandId, Request>, h: Hash)
  {
    exists c, a :: c in requests && 0 <= a < |requests[c].batch| && hash(requests[c].batch[a].1) == h
  }

  ghost predicate SentCarried(hash: Hasher, sent: map<ApiId, set<Hash>>, requests: map<CommandId, Request>)
  {
    forall api, h :: api in sent && h in sent[api] ==> Carried(hash, requests, h)
  }

  ghost predicate ImagesCarried(hash: Hasher, requests: map<CommandId, Request>)
  {
    forall c, i :: c in requests && 0 <= i < |requests[c].images| ==>
      Carried(hash, requests, hash(requests[c].images[i]))
  }

  ghost predicate Known(requests: map<CommandId, Request>, delivered: set<(CommandId, nat)>, dispatched: set<CommandId>)
  {
    && (forall c :: c in requests ==> RequestOk(requests[c]))
    && (forall c, k :: (c, k) in delivered ==> c in requests)
    && (forall c :: c in dispatched ==> c in requests)
  }

  ghost predicate Inv(hash: Hasher, w: World)
  {
    && Known(w.requests, w.delivered, w.dispatched)
    && BuffersOk(w) && CacheComplete(w) && CacheSound(w)
    && SentCarried(hash, w.sent, w.requests) && ImagesCarried(hash, w.requests)
  }

  // ----- the steps -----

  /** What the store becomes when chunk `k` of a request arrives. */
  ghost predicate Took(s: Store, t: Store, c: CommandId, r: Request, k: nat)
  {
    var chunks := ChunksOf(c, r);
    && k < |chunks| && s.counts.Keys == s.buffer.Keys
    && t.buffer == s.buffer[c := s.Buffered(c)[k := chunks[k]]] && t.counts == s.counts[c := |chunks|]
    && Holds(t.buffer[c], chunks)
    && t.cached == s.cached + if t.buffer[c].Keys == Below(|chunks|) then Contents(r.batch) else {}
  }

  lemma {:induction false} Received(s: Store, c: CommandId, r: Request, k: nat)
    requires s.buffer.Keys == s.counts.Keys && RequestOk(r) && k < |ChunksOf(c, r)|
    requires c in s.buffer ==> s.counts[c] == |ChunksOf(c, r)| && Holds(s.buffer[c], ChunksOf(c, r))
    ensures Took(s, s.Receive(ChunksOf(c, r)[k]), c, r, k)
  {
    var chunks := ChunksOf(c, r);
    var m: map<nat, Chunk> := s.Buffered(c)[k := chunks[k]];
    FullExactly(m, chunks);
    assert s.Receive(chunks[k]).buffer == s.buffer[c := m] && s.Receive(chunks[k]).counts == s.counts[c := |chunks|];
    assert s.Receive(chunks[k]).cached == if |m| == |chunks| then s.cached + Assembled(m) else s.cached;
    if m.Keys == Below(|chunks|) {
      FullBuffer(m, c, r.batch);
    }
  }

  ghost predicate Delivers(w: World, v: World, c: CommandId, k: nat)
  {
    && c in w.requests && v == w.(delivered := w.delivered + {(c, k)}, store := v.store)
    && Took(w.store, v.store, c, w.requests[c], k)
  }

  lemma {:induction false} DeliverKeepsBuffers(w: World, v: World, c: CommandId, k: nat)
    requires BuffersOk(w) && Delivers(w, v, c, k)
    ensures BuffersOk(v)
  {
    forall d ensures BufferOk(v, d) {
      assert BufferOk(w, d);
    }
  }

  lemma {:induction false} DeliverKeepsComplete(w: World, v: World, c: CommandId, k: nat)
    requires BuffersOk(w) && CacheComplete(w) && Delivers(w, v, c, k)
    ensures CacheComplete(v)
  {
    forall d | d in v.requests && (d in v.dispatched || Arrived(v, d))
      ensures Contents(v.requests[d].batch) <= v.store.cached
    {
      if d !in w.dispatched && d != c {
        assert Arrived(w, d) by {
          forall j | 0 <= j < |ChunksOf(d, w.requests[d])| ensures (d, j) in w.delivered {
            assert (d, j) in v.delivered;
          }
        }
      } else if d !in w.dispatched {
        ArrivedIsFull(w, v, c, k);
      }
    }
  }

  lemma {:induction false} ArrivedIsFull(w: World, v: World, c: CommandId, k: nat)
    requires BufferOk(w, c) && Delivers(w, v, c, k) && c !in w.dispatched && Arrived(v, c)
    ensures v.store.buffer[c].Keys == Below(|ChunksOf(c, w.requests[c])|)
  {
    forall j | 0 <= j < |ChunksOf(c, w.requests[c])| ensures j in v.store.buffer[c] {
      assert (c, j) in v.delivered;
    }
  }

  lemma {:induction false} DeliverKeepsSound(w: World, v: World, c: CommandId, k: nat)
    requires BuffersOk(w) && CacheSound(w) && Delivers(w, v, c, k)
    ensures CacheSound(v)
  {
    var chunks := ChunksOf(c, w.requests[c]);
    assert BufferOk(w, c);
    forall x | x in v.store.cached ensures x != "" && Supplied(v, x) {
      if x in w.store.cached {
        var d :| Arrived(w, d) && Carries(w.requests[d].batch, x);
        assert Arrived(v, d);
      } else {
        forall j | 0 <= j < |chunks| ensures (c, j) in v.delivered {
          assert j in v.store.buffer[c];
        }
        assert Arrived(v, c) && Carries(v.requests[c].batch, x);
      }
    }
  }

  lemma {:induction false} DeliverDelivers(hash: Hasher, w: World, c: CommandId, k: nat)
    requires BuffersOk(w) && Enabled(w, Deliver(c, k)) && RequestOk(w.requests[c])
    ensures Delivers(w, Do(hash, w, Deliver(c, k)), c, k)
  {
    assert BufferOk(w, c);
    Received(w.store, c, w.requests[c], k);
  }

  lemma {:induction false} DeliverKeepsInv(hash: Hasher, w: World, v: World, c: CommandId, k: nat)
    requires Inv(hash, w) && Delivers(w, v, c, k)
    ensures Inv(hash, v)
  {
    DeliverKeepsBuffers(w, v, c, k);
    DeliverKeepsComplete(w, v, c, k);
    DeliverKeepsSound(w, v, c, k);
    DeliverKeepsKnown(w, c, k);
  }

  lemma {:induction false} DeliverKeepsKnown(w: World, c: CommandId, k: nat)
    requires Known(w.requests, w.delivered, w.dispatched) && c in w.requests
    ensures Known(w.requests, w.delivered + {(c, k)}, w.dispatched)
  {
  }

  lemma {:induction false} SendKeepsCarried(
    hash: Hasher, sent: set<Hash>, requests: map<CommandId, Request>, c: CommandId, images: seq<Image>, h: Hash)
    requires Injective(hash) && c !in requests && (forall g :: g in sent ==> Carried(hash, requests, g))
    ensures var after := requests[c := Request(images, NewImages(hash, images, |images|, sent))];
            && (Carried(hash, requests, h) ==> Carried(hash, after, h))
            && (h in SentAfter(hash, images, |images|, sent) ==> Carried(hash, after, h))
  {
    var after := requests[c := Request(images, NewImages(hash, images, |images|, sent))];
    if Carried(hash, requests, h) {
      var d, a :| d in requests && 0 <= a < |requests[d].batch| && hash(requests[d].batch[a].1) == h;
      assert after[d] == requests[d];
    } else if h in SentAfter(hash, images, |images|, sent) {
      var i :| 0 <= i < |images| && hash(images[i]) == h;
      EveryImageIsCarried(hash, images, |images|, sent, i);
      var a :| 0 <= a < |after[c].batch| && after[c].batch[a].1 == images[i];
      assert hash(after[c].batch[a].1) == h;
    }
  }

  lemma {:induction false} SendKeepsSentCarried(hash: Hasher, w: World, api: ApiId, c: CommandId, images: seq<Image>)
    requires Injective(hash) && SentCarried(hash, w.sent, w.requests) && c !in w.requests
    ensures var after := w.requests[c := Request(images, NewImages(hash, images, |images|, Sent(w, api)))];
            SentCarried(hash, w.sent[api := SentAfter(hash, images, |images|, Sent(w, api))], after)
  {
    var after := w.requests[c := Request(images, NewImages(hash, images, |images|, Sent(w, api)))];
    forall h | Carried(hash, w.requests, h) || h in SentAfter(hash, images, |images|, Sent(w, api))
      ensures Carried(hash, after, h)
    {
      SendKeepsCarried(hash, Sent(w, api), w.requests, c, images, h);
    }
  }

  lemma {:induction false} SendKeepsImagesCarried(hash: Hasher, w: World, api: ApiId, c: CommandId, images: seq<Image>)
    requires Injective(hash) && SentCarried(hash, w.sent, w.requests) && ImagesCarried(hash, w.requests)
    requires c !in w.requests
    ensures ImagesCarried(hash, w.requests[c := Request(images, NewImages(hash, images, |images|, Sent(w, api)))])
  {
    var after := w.requests[c := Request(images, NewImages(hash, images, |images|, Sent(w, api)))];
    forall d, i | d in after && 0 <= i < |after[d].images| ensures Carried(hash, after, hash(after[d].images[i])) {
      SendKeepsCarried(hash, Sent(w, api), w.requests, c, images, hash(after[d].images[i]));
      if d == c {
        assert hash(images[i]) in SentAfter(hash, images, |images|, Sent(w, api));
      } else {
        assert Carried(hash, w.requests, hash(w.requests[d].images[i]));
      }
    }
  }

  lemma {:induction false} SendKeepsRest(hash: Hasher, w: World, api: ApiId, c: CommandId, images: seq<Image>)
    requires Inv(hash, w) && c !in w.requests
    ensures var v := Do(hash, w, Send(api, c, images));
            BuffersOk(v) && CacheComplete(v) && CacheSound(v) && RequestOk(v.requests[c])
  {
    var v := Do(hash, w, Send(api, c, images));
    var batch := v.requests[c].batch;
    forall d ensures BufferOk(v, d) {
      assert BufferOk(w, d);
    }
    forall d | d in v.requests && (d in v.dispatched || Arrived(v, d))
      ensures Contents(v.requests[d].batch) <= v.store.cached
    {
      if d != c {
        assert d in w.dispatched || Arrived(w, d);
      } else {
        NoChunksNoContent(w, v, c);
      }
    }
    forall x | x in v.store.cached ensures x != "" && Supplied(v, x) {
      var d :| Arrived(w, d) && Carries(w.requests[d].batch, x);
      assert Arrived(v, d) && v.requests[d] == w.requests[d];
    }
  }

  /** A request all of whose chunks arrived before it was sent has none. */
  lemma {:induction false} NoChunksNoContent(w: World, v: World, c: CommandId)
    requires c !in w.requests && (forall d, k :: (d, k) in w.delivered ==> d in w.requests)
    requires v.delivered == w.delivered && Arrived(v, c)
    ensures Contents(v.requests[c].batch) == {}
  {
    var batch := v.requests[c].batch;
    var pieces := CutAll(batch);
    assert |ChunksOf(c, v.requests[c])| > 0 ==> (c, 0) in w.delivered;
    assert pieces == [];
    forall a | 0 <= a < |batch| ensures batch[a].1 == "" {
      PiecesOfBatch(batch, batch[a].0);
      assert !HasPiece(pieces, batch[a].0);
      assert !HasContent(batch, batch[a].0);
    }
  }

  lemma {:induction false} DispatchKeepsInv(hash: Hasher, w: World, c: CommandId)
    requires Inv(hash, w) && Enabled(w, Dispatch(c))
    ensures Inv(hash, Do(hash, w, Dispatch(c)))
  {
    var v := Do(hash, w, Dispatch(c));
    forall d ensures BufferOk(v, d) {
      assert BufferOk(w, d);
    }
    forall d | d in v.requests && (d in v.dispatched || Arrived(v, d))
      ensures Contents(v.requests[d].batch) <= v.store.cached
    {
      if d == c {
        assert RequestOk(w.requests[c]);
        forall x | x in Contents(w.requests[c].batch) ensures x in w.store.cached {
          var i :| 0 <= i < |w.requests[c].images| && w.requests[c].images[i] == x;
        }
      } else {
        assert d in w.dispatched || Arrived(w, d);
      }
    }
    forall x | x in v.store.cached ensures x != "" && Supplied(v, x) {
      var d :| Arrived(w, d) && Carries(w.requests[d].batch, x);
      assert Arrived(v, d);
    }
  }

  lemma {:induction false} StepKeepsInv(hash: Hasher, w: World, s: Step)
    requires Injective(hash) && Inv(hash, w) && Enabled(w, s)
    ensures Inv(hash, Do(hash, w, s))
  {
    match s
    case Send(api, c, images) =>
      SendKeepsSentCarried(hash, w, api, c, images);
      SendKeepsImagesCarried(hash, w, api, c, images);
      SendKeepsRest(hash, w, api, c, images);
    case Deliver(c, k) =>
      DeliverDelivers(hash, w, c, k);
      DeliverKeepsInv(hash, w, Do(hash, w, s), c, k);
    case Dispatch(c) => DispatchKeepsInv(hash, w, c);
  }

  ghost predicate IsRun(hash: Hasher, run: seq<World>, steps: seq<Step>)
  {
    && |run| == |steps| + 1 && Init(run[0])
    && (forall i :: 0 <= i < |steps| ==>
          && run[i].store.buffer.Keys == run[i].store.counts.Keys
          && Enabled(run[i], steps[i]) && run[i + 1] == Do(hash, run[i], steps[i]))
  }

  lemma {:induction false} RunKeepsInv(hash: Hasher, run: seq<World>, steps: seq<Step>, n: nat)
    requires Injective(hash) && IsRun(hash, run, steps) && n < |run|
    ensures Inv(hash, run[n])
  {
    if n > 0 {
      RunKeepsInv(hash, run, steps, n - 1);
      StepKeepsInv(hash, run[n - 1], steps[n - 1]);
    }
  }

  // ----- the theorems -----

  /** In every state of every run, a request can be started exactly when each of its
      images has content and all chunks of some request that carries it have arrived. */
  lemma {:induction false} ReadyExactly(hash: Hasher, run: seq<World>, steps: seq<Step>, n: nat, c: CommandId)
    requires Injective(hash) && IsRun(hash, run, steps) && n < |run| && c in run[n].requests
    ensures Ready(run[n].store, run[n].requests[c]) <==>
            forall i :: 0 <= i < |run[n].requests[c].images| ==>
              run[n].requests[c].images[i] != "" && Supplied(run[n], run[n].requests[c].images[i])
  {
    var w := run[n];
    RunKeepsInv(hash, run, steps, n);
    forall x | x != "" && Supplied(w, x) ensures x in w.store.cached {
      var d :| Arrived(w, d) && Carries(w.requests[d].batch, x);
      assert x in Contents(w.requests[d].batch);
    }
  }

  /** Once every chunk sent so far has arrived, exactly the requests without an empty
      image can be started, those with images sent by earlier requests included. */
  lemma {:induction false} AllArrivedReady(hash: Hasher, run: seq<World>, steps: seq<Step>, n: nat, c: CommandId)
    requires Injective(hash) && IsRun(hash, run, steps) && n < |run| && c in run[n].requests
    requires forall d :: d in run[n].requests ==> Arrived(run[n], d)
    ensures Ready(run[n].store, run[n].requests[c]) <==> "" !in run[n].requests[c].images
  {
    var w := run[n];
    var images := w.requests[c].images;
    RunKeepsInv(hash, run, steps, n);
    ReadyExactly(hash, run, steps, n, c);
    forall i | 0 <= i < |images| ensures Supplied(w, images[i]) {
      assert Carried(hash, w.requests, hash(images[i]));
      var x := images[i];
      var d, a :| d in w.requests && 0 <= a < |w.requests[d].batch| && hash(w.requests[d].batch[a].1) == hash(x);
      assert Arrived(w, d) && Carries(w.requests[d].batch, images[i]);
    }
  }

  /** A request with an empty image is never started. */
  lemma {:induction false} EmptyImageNeverStarts(hash: Hasher, run: seq<World>, steps: seq<Step>, n: nat, c: CommandId)
    requires Injective(hash) && IsRun(hash, run, steps) && n < |steps| && c in run[n].requests
    requires "" in run[n].requests[c].images
    ensures steps[n] != Dispatch(c)
  {
    ReadyExactly(hash, run, steps, n, c);
  }
}
