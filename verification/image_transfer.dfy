/** Images on their way from the API to a worker: each new image is cut into chunks
    numbered over the whole command (src/exo/api/main.py), and the worker puts them
    together again (src/exo/worker/main.py).  An image is known by its hash, here any
    injective function. */
module ImageTransfer {
  type Image = string
  type Hash = nat
  type CommandId = nat
  type Hasher = Image -> Hash

  datatype Piece = Piece(image: nat, data: string)
  datatype Chunk = Chunk(command: CommandId, data: string, index: nat, total: nat, image: nat)

  const EXO_MAX_CHUNK_SIZE := 512 * 1024

  ghost predicate Injective(hash: Hasher)
  {
    forall a, b :: hash(a) == hash(b) ==> a == b
  }

  // ----- cutting -----

  function CutPoint(data: string): (n: nat)
    ensures n <= |data| && (data != "" ==> n > 0)
  {
    if |data| < EXO_MAX_CHUNK_SIZE then |data| else EXO_MAX_CHUNK_SIZE
  }

  function Cut(image: nat, data: string): seq<Piece>
    decreases |data|
  {
    if data == "" then []
    else [Piece(image, data[..CutPoint(data)])] + Cut(image, data[CutPoint(data)..])
  }

  /** The new images of a command, by their place in it. */
  type Batch = seq<(nat, Image)>

  function CutAll(batch: Batch): seq<Piece>
  {
    if batch == [] then []
    else CutAll(batch[..|batch| - 1]) + Cut(batch[|batch| - 1].0, batch[|batch| - 1].1)
  }

  function Numbered(command: CommandId, pieces: seq<Piece>): (chunks: seq<Chunk>)
    ensures |chunks| == |pieces|
    ensures forall k :: 0 <= k < |chunks| ==> chunks[k] == Chunk(command, pieces[k].data, k, |pieces|, pieces[k].image)
  {
    seq(|pieces|, k requires 0 <= k < |pieces| => Chunk(command, pieces[k].data, k, |pieces|, pieces[k].image))
  }

  // ----- putting together -----

  function Joined(pieces: seq<Piece>, image: nat): string
  {
    if pieces == [] then ""
    else
      var last := pieces[|pieces| - 1];
      Joined(pieces[..|pieces| - 1], image) + if last.image == image then last.data else ""
  }

  lemma {:induction false} JoinedConcat(a: seq<Piece>, b: seq<Piece>, image: nat)
    ensures Joined(a + b, image) == Joined(a, image) + Joined(b, image)
  {
    if b == [] {
      assert a + b == a;
    } else {
      JoinedConcat(a, b[..|b| - 1], image);
      assert (a + b)[..|a + b| - 1] == a + b[..|b| - 1];
    }
  }

  lemma {:induction false} JoinedOne(p: Piece, i: nat)
    ensures Joined([p], i) == if p.image == i then p.data else ""
  {
    assert [p][..0] == [] && Joined([], i) == "";
  }

  lemma {:induction false} CutJoins(image: nat, data: string, i: nat)
    ensures Joined(Cut(image, data), i) == if i == image then data else ""
    decreases |data|
  {
    if data != "" {
      var n := CutPoint(data);
      var first, rest := Piece(image, data[..n]), data[n..];
      CutJoins(image, rest, i);
      JoinedOne(first, i);
      JoinedConcat([first], Cut(image, rest), i);
      assert data == data[..n] + rest;
    }
  }

  lemma {:induction false} CutPieces(image: nat, data: string, k: nat)
    requires k < |Cut(image, data)|
    ensures Cut(image, data)[k].image == image && 0 < |Cut(image, data)[k].data| <= EXO_MAX_CHUNK_SIZE
    decreases |data|
  {
    if k > 0 {
      CutPieces(image, data[CutPoint(data)..], k - 1);
    }
  }

  lemma {:induction false} FullPieces(image: nat, data: string, k: nat)
    requires k < |Cut(image, data)| - 1
    ensures |Cut(image, data)[k].data| == EXO_MAX_CHUNK_SIZE
    decreases |data|
  {
    if k > 0 {
      FullPieces(image, data[CutPoint(data)..], k - 1);
    }
  }

  /** Cutting loses nothing, and makes pieces of one to MAX characters of that image, all
      but the last of MAX. */
  lemma {:induction false} CutRoundTrip(image: nat, data: string)
    ensures forall i :: Joined(Cut(image, data), i) == if i == image then data else ""
    ensures forall k :: 0 <= k < |Cut(image, data)| ==>
              Cut(image, data)[k].image == image && 0 < |Cut(image, data)[k].data| <= EXO_MAX_CHUNK_SIZE
    ensures forall k :: 0 <= k < |Cut(image, data)| - 1 ==> |Cut(image, data)[k].data| == EXO_MAX_CHUNK_SIZE
    ensures Cut(image, data) == [] <==> data == ""
  {
    forall k | 0 <= k < |Cut(image, data)| - 1 ensures |Cut(image, data)[k].data| == EXO_MAX_CHUNK_SIZE {
      FullPieces(image, data, k);
    }
    forall i ensures Joined(Cut(image, data), i) == if i == image then data else "" {
      CutJoins(image, data, i);
    }
    forall k | 0 <= k < |Cut(image, data)|
      ensures Cut(image, data)[k].image == image && 0 < |Cut(image, data)[k].data| <= EXO_MAX_CHUNK_SIZE
    {
      CutPieces(image, data, k);
    }
  }

  /** No place is named twice. */
  ghost predicate DistinctPlaces(batch: Batch)
  {
    forall a, b :: 0 <= a < b < |batch| ==> batch[a].0 != batch[b].0
  }

  /** Some piece belongs to the place. */
  ghost predicate HasPiece(pieces: seq<Piece>, place: nat)
  {
    exists k :: 0 <= k < |pieces| && pieces[k].image == place
  }

  /** The batch has an image with content at the place. */
  ghost predicate HasContent(batch: Batch, place: nat)
  {
    exists a :: 0 <= a < |batch| && batch[a].0 == place && batch[a].1 != ""
  }

  lemma {:induction false} JoinedLast(batch: Batch, place: nat)
    requires batch != []
    ensures var n := |batch| - 1;
            Joined(CutAll(batch), place)
            == Joined(CutAll(batch[..n]), place) + if batch[n].0 == place then batch[n].1 else ""
  {
    var last := batch[|batch| - 1];
    CutRoundTrip(last.0, last.1);
    JoinedConcat(CutAll(batch[..|batch| - 1]), Cut(last.0, last.1), place);
  }

  lemma {:induction false} NotPlaced(batch: Batch, place: nat)
    requires forall b :: 0 <= b < |batch| ==> batch[b].0 != place
    ensures Joined(CutAll(batch), place) == ""
  {
    if batch != [] {
      NotPlaced(batch[..|batch| - 1], place);
      JoinedLast(batch, place);
    }
  }

  /** The pieces of a batch hold each of its images as it was. */
  lemma {:induction false} JoinedBatch(batch: Batch, a: nat)
    requires DistinctPlaces(batch) && a < |batch|
    ensures Joined(CutAll(batch), batch[a].0) == batch[a].1
  {
    var n := |batch| - 1;
    JoinedLast(batch, batch[a].0);
    if a == n {
      NotPlaced(batch[..n], batch[n].0);
    } else {
      JoinedBatch(batch[..n], a);
    }
  }

  lemma {:induction false} PiecesOfBatch(batch: Batch, place: nat)
    ensures HasPiece(CutAll(batch), place) <==> HasContent(batch, place)
  {
    if batch != [] {
      var n := |batch| - 1;
      var before, cut, all := CutAll(batch[..n]), Cut(batch[n].0, batch[n].1), CutAll(batch);
      PiecesOfBatch(batch[..n], place);
      CutRoundTrip(batch[n].0, batch[n].1);
      assert all == before + cut;
      assert HasPiece(all, place) <==> HasPiece(before, place) || HasPiece(cut, place) by {
        if k :| 0 <= k < |before| && before[k].image == place { assert all[k].image == place; }
        if k :| 0 <= k < |cut| && cut[k].image == place { assert all[|before| + k].image == place; }
      }
      assert HasPiece(cut, place) <==> batch[n].0 == place && batch[n].1 != "" by {
        if batch[n].1 != "" { assert cut[0].image == batch[n].0; }
      }
      assert HasContent(batch, place)
             <==> HasContent(batch[..n], place) || (batch[n].0 == place && batch[n].1 != "") by {
        if a :| 0 <= a < n && batch[a].0 == place && batch[a].1 != "" { assert batch[..n][a] == batch[a]; }
        if batch[n].0 == place && batch[n].1 != "" { assert HasContent(batch, place); }
      }
    }
  }

  // ----- the sender -----

  /** The first `n` images, without those sent before or repeated. */
  function NewImages(hash: Hasher, images: seq<Image>, n: nat, sent: set<Hash>): (batch: Batch)
    requires n <= |images|
    ensures forall a :: 0 <= a < |batch| ==> batch[a].0 < n && batch[a].1 == images[batch[a].0]
    ensures DistinctPlaces(batch)
  {
    if n == 0 then []
    else
      var before := NewImages(hash, images, n - 1, sent);
      if hash(images[n - 1]) in SentAfter(hash, images, n - 1, sent) then before else before + [(n - 1, images[n - 1])]
  }

  function SentAfter(hash: Hasher, images: seq<Image>, n: nat, sent: set<Hash>): set<Hash>
    requires n <= |images|
  {
    sent + set i | 0 <= i < n :: hash(images[i])
  }

  ghost predicate Carries(batch: Batch, x: Image)
  {
    exists a :: 0 <= a < |batch| && batch[a].1 == x
  }

  lemma {:induction false} CarriesMore(batch: Batch, p: (nat, Image), x: Image)
    ensures Carries(batch + [p], x) <==> Carries(batch, x) || p.1 == x
  {
    var more := batch + [p];
    if Carries(batch, x) {
      var a :| 0 <= a < |batch| && batch[a].1 == x;
      assert more[a].1 == x;
    }
    assert more[|batch|] == p;
  }

  lemma {:induction false} NewImagesGrow(hash: Hasher, images: seq<Image>, m: nat, n: nat, sent: set<Hash>, x: Image)
    requires m <= n <= |images| && Carries(NewImages(hash, images, m, sent), x)
    ensures Carries(NewImages(hash, images, n, sent), x)
  {
    if m < n {
      NewImagesGrow(hash, images, m, n - 1, sent, x);
      CarriesMore(NewImages(hash, images, n - 1, sent), (n - 1, images[n - 1]), x);
    }
  }

  /** An image of the command was sent before, or goes with this command. */
  lemma {:induction false} EveryImageIsCarried(hash: Hasher, images: seq<Image>, n: nat, sent: set<Hash>, i: nat)
    requires Injective(hash) && i < n <= |images| && hash(images[i]) !in sent
    ensures Carries(NewImages(hash, images, n, sent), images[i])
    decreases i
  {
    if hash(images[i]) in SentAfter(hash, images, i, sent) {
      var j :| 0 <= j < i && hash(images[j]) == hash(images[i]);
      EveryImageIsCarried(hash, images, n, sent, j);
    } else {
      CarriesMore(NewImages(hash, images, i, sent), (i, images[i]), images[i]);
      NewImagesGrow(hash, images, i + 1, n, sent, images[i]);
    }
  }

  function HashesOf(hash: Hasher, images: seq<Image>): map<nat, Hash>
  {
    map i | 0 <= i < |images| :: hash(images[i])
  }

  function ChunksFor(hash: Hasher, command: CommandId, images: seq<Image>, sent: set<Hash>): seq<Chunk>
  {
    Numbered(command, CutAll(NewImages(hash, images, |images|, sent)))
  }

  class Sender {
    const hash: Hasher
    var sent: set<Hash>

    constructor (hash: Hasher)
      ensures this.hash == hash && sent == {}
    {
      this.hash, sent := hash, {};
    }

    /** `_send_text_generation_with_images`: the hashes that go with the command and
        the chunks that go before it. */
    method Send(command: CommandId, images: seq<Image>) returns (hashes: map<nat, Hash>, chunks: seq<Chunk>)
      modifies this
      ensures hashes == HashesOf(hash, images)
      ensures chunks == ChunksFor(hash, command, images, old(sent))
      ensures sent == SentAfter(hash, images, |images|, old(sent))
    {
      hashes := HashesOf(hash, images);
      var batch := PickNew(images);
      var pieces := CutBatch(batch);
      chunks := Number(command, pieces);
    }

    method PickNew(images: seq<Image>) returns (batch: Batch)
      modifies this
      ensures batch == NewImages(hash, images, |images|, old(sent))
      ensures sent == SentAfter(hash, images, |images|, old(sent))
    {
      batch := [];
      for i := 0 to |images|
        invariant batch == NewImages(hash, images, i, old(sent))
        invariant sent == SentAfter(hash, images, i, old(sent))
      {
        var h := hash(images[i]);
        assert SentAfter(hash, images, i + 1, old(sent)) == sent + {h};
        if h !in sent {
          sent := sent + {h};
          batch := batch + [(i, images[i])];
        }
      }
    }
  }

  method CutBatch(batch: Batch) returns (pieces: seq<Piece>)
    ensures pieces == CutAll(batch)
  {
    pieces := [];
    for a := 0 to |batch|
      invariant pieces == CutAll(batch[..a])
    {
      assert batch[..a + 1][..a] == batch[..a];
      var cut := CutImage(batch[a].0, batch[a].1);
      pieces := pieces + cut;
    }
    assert batch[..|batch|] == batch;
  }

  method CutImage(image: nat, data: string) returns (pieces: seq<Piece>)
    ensures pieces == Cut(image, data)
  {
    pieces := [];
    var i := 0;
    assert data[0..] == data;
    while i < |data|
      invariant 0 <= i <= |data|
      invariant pieces + Cut(image, data[i..]) == Cut(image, data)
    {
      var end := if i + EXO_MAX_CHUNK_SIZE < |data| then i + EXO_MAX_CHUNK_SIZE else |data|;
      assert data[i..][..CutPoint(data[i..])] == data[i..end];
      assert data[i..][CutPoint(data[i..])..] == data[end..];
      pieces := pieces + [Piece(image, data[i..end])];
      i := end;
    }
  }

  method Number(command: CommandId, pieces: seq<Piece>) returns (chunks: seq<Chunk>)
    ensures chunks == Numbered(command, pieces)
  {
    chunks := [];
    for k := 0 to |pieces|
      invariant chunks == Numbered(command, pieces)[..k]
    {
      chunks := chunks + [Chunk(command, pieces[k].data, k, |pieces|, pieces[k].image)];
    }
  }
}
