/** Turning a layer allocation into shards (src/exo/master/placement_utils.py):
    memory validation, the pure pipeline, and the mirrored CFG layout. */
module ShardAssignment {
  import opened Common
  import opened LayerAllocation

  /** One shard per position of the cycle.  `cfgRank` is the prompt branch, 0 in a
      pure pipeline; `stage` is the rank inside the pipeline group. */
  datatype Shard = Shard(
    deviceRank: nat, worldSize: nat, start: int, end: int, nLayers: nat, cfgRank: nat, stage: nat, stages: nat)

  // ----- memory -----

  function Fractions(memory: seq<int>): seq<real>
    requires Sum(memory) != 0
  {
    seq(|memory|, i requires 0 <= i < |memory| => memory[i] as real / Sum(memory) as real)
  }

  ghost predicate NonNegative(memory: seq<int>)
  {
    forall i :: 0 <= i < |memory| ==> memory[i] >= 0
  }

  lemma {:induction false} SumNonNegative(memory: seq<int>)
    requires NonNegative(memory)
    ensures Sum(memory) >= 0
  {
    if memory != [] {
      SumNonNegative(memory[..|memory| - 1]);
    }
  }

  lemma {:induction false} ScaledSum(memory: seq<int>, total: real, scaled: seq<real>)
    requires total != 0.0 && |scaled| == |memory|
    requires forall i :: 0 <= i < |memory| ==> scaled[i] == memory[i] as real / total
    ensures SumReal(scaled) == Sum(memory) as real / total
  {
    if memory != [] {
      var n := |memory| - 1;
      ScaledSum(memory[..n], total, scaled[..n]);
      var a, b := Sum(memory[..n]) as real, memory[n] as real;
      assert a / total + b / total == (a + b) / total;
    }
  }

  lemma {:induction false} FractionsAreDistribution(memory: seq<int>)
    requires NonNegative(memory) && Sum(memory) != 0
    ensures IsDistribution(Fractions(memory))
  {
    SumNonNegative(memory);
    ScaledSum(memory, Sum(memory) as real, Fractions(memory));
    SelfQuotient(Sum(memory) as real);
    forall i | 0 <= i < |memory| ensures Fractions(memory)[i] >= 0.0 {
      QuotientNonNegative(memory[i] as real, Sum(memory) as real);
    }
  }

  lemma {:induction false} SelfQuotient(a: real)
    requires a != 0.0
    ensures a / a == 1.0
  {
  }

  lemma {:induction false} QuotientNonNegative(a: real, b: real)
    requires a >= 0.0 && b > 0.0
    ensures a / b >= 0.0
  {
  }

  /** `(total_storage * node_layers) // total_layers`. */
  function Required(storage: nat, share: int, layers: nat): int
    requires layers > 0
  {
    storage * share / layers
  }

  /** The part of the storage that `share` of the layers take, rounded down to whole
      bytes, is at most what is available. */
  ghost predicate Holds(storage: nat, share: int, layers: nat, available: int)
  {
    storage * share < (available + 1) * layers
  }

  lemma {:induction false} RequiredExactly(storage: nat, share: int, layers: nat, available: int)
    requires layers > 0
    ensures Required(storage, share, layers) <= available <==> Holds(storage, share, layers, available)
  {
    QuotientExactly(storage * share, layers, available);
  }

  lemma {:induction false} QuotientExactly(a: int, b: int, m: int)
    requires b > 0
    ensures a / b <= m <==> a < (m + 1) * b
  {
    var q := a / b;
    assert a == q * b + a % b;
    if q <= m {
      ProductOrder(q + 1, m + 1, b);
    } else {
      ProductOrder(m + 1, q, b);
    }
  }

  lemma {:induction false} ProductOrder(x: int, y: int, b: int)
    requires x <= y && b > 0
    ensures x * b <= y * b
  {
    assert y * b - x * b == (y - x) * b;
  }

  /** A node's share of the storage, in proportion to its memory. */
  ghost function ProportionalStorage(storage: nat, fraction: real): real
  {
    fraction * storage as real
  }

  lemma {:induction false} DivisionRoundsDown(a: int, b: int)
    requires b > 0
    ensures (a / b) as real <= a as real / b as real
  {
    assert a == a / b * b + a % b;
    assert (a / b) as real * b as real <= a as real;
  }

  lemma {:induction false} MulMonotone(s: real, a: real, b: real)
    requires s >= 0.0 && a <= b
    ensures s * a <= s * b
  {
  }

  lemma {:induction false} DivideBoth(a: real, b: real, n: real)
    requires a <= b && n > 0.0
    ensures a / n <= b / n
  {
  }

  lemma {:induction false} SplitQuotient(x: real, s: real, n: real)
    requires n > 0.0
    ensures (x * n + s) / n == x + s / n
  {
  }

  /** `share` is at most one above the quota `f * n`, so its storage is at most one
      layer above the proportional storage. */
  lemma {:induction false} OneLayerAbove(f: real, s: real, n: real, share: real)
    requires s >= 0.0 && n > 0.0 && share <= f * n + 1.0
    ensures s * share / n <= f * s + s / n
  {
    MulMonotone(s, share, f * n + 1.0);
    DivideBoth(s * share, s * (f * n + 1.0), n);
    assert s * (f * n + 1.0) == (f * s) * n + s;
    SplitQuotient(f * s, s, n);
  }

  lemma {:induction false} CapAtMostQuotaPlusOne(q: real, share: int)
    requires q >= 0.0 && share <= AtLeastOne(q)
    ensures share as real <= q + 1.0
  {
  }

  lemma {:induction false} RequiredIsQuotient(storage: nat, share: int, layers: nat)
    requires layers > 0
    ensures Required(storage, share, layers) as real <= storage as real * share as real / layers as real
  {
    var p := storage * share;
    DivisionRoundsDown(p, layers);
    assert p as real == storage as real * share as real;
  }

  /** A node within its fair share needs at most its proportional storage plus one
      layer's worth. */
  lemma {:induction false} MemoryBound(storage: nat, layers: nat, f: real, share: int, quota: real)
    requires layers > 0 && f >= 0.0 && quota == f * layers as real && share <= AtLeastOne(quota)
    ensures Required(storage, share, layers) as real
            <= ProportionalStorage(storage, f) + storage as real / layers as real
  {
    assert share as real <= quota + 1.0 by {
      MulMonotone(layers as real, 0.0, f);
      CapAtMostQuotaPlusOne(quota, share);
    }
    RequiredIsQuotient(storage, share, layers);
    OneLayerAbove(f, storage as real, layers as real, share as real);
  }

  /** A node with this fraction of the memory has its proportional storage free, and
      one layer more. */
  ghost predicate HasSpareLayer(fraction: real, available: int, storage: nat, layers: nat)
    requires layers > 0
  {
    ProportionalStorage(storage, fraction) + storage as real / layers as real <= available as real
  }

  lemma {:induction false} SpareLayerFits(f: real, available: int, storage: nat, layers: nat, share: int, quota: real)
    requires layers > 0 && f >= 0.0 && quota == f * layers as real && share <= AtLeastOne(quota)
    requires HasSpareLayer(f, available, storage, layers)
    ensures Required(storage, share, layers) <= available
  {
    MemoryBound(storage, layers, f, share, quota);
  }

  ghost predicate Fits(memory: seq<int>, storage: nat, layers: nat, shares: seq<int>)
    requires |memory| == |shares|
  {
    forall i :: 0 <= i < |memory| ==> FitsAt(memory, storage, layers, shares, i)
  }

  lemma {:induction false} FitsHolds(memory: seq<int>, storage: nat, layers: nat, shares: seq<int>, k: nat)
    requires |memory| == |shares| && Fits(memory, storage, layers, shares) && k < |memory|
    ensures Holds(storage, shares[k], layers, memory[k])
  {
    assert FitsAt(memory, storage, layers, shares, k);
  }

  ghost predicate AllHaveSpareLayer(fractions: seq<real>, memory: seq<int>, storage: nat, layers: nat)
    requires |fractions| == |memory| && layers > 0
  {
    forall i :: 0 <= i < |memory| ==> HasSpareLayer(fractions[i], memory[i], storage, layers)
  }

  lemma {:induction false} QuotaAt(layers: nat, fractions: seq<real>, i: nat)
    requires i < |fractions|
    ensures |Quotas(layers, fractions)| == |fractions| && Quotas(layers, fractions)[i] == fractions[i] * layers as real
  {
  }

  /** One node: `f` is its fraction of the memory and `available` what it has. */
  lemma {:induction false} NodeFits(
    f: real, available: int, storage: nat, layers: nat, shares: seq<int>, quotas: seq<real>, i: nat)
    requires Fair(shares, layers, quotas) && i < |quotas| && layers > 0 && f >= 0.0
    requires quotas[i] == f * layers as real && HasSpareLayer(f, available, storage, layers)
    ensures i < |shares| && Required(storage, shares[i], layers) <= available
  {
    var share := shares[i];
    assert share <= AtLeastOne(quotas[i]);
    SpareLayerFits(f, available, storage, layers, share, quotas[i]);
  }

  ghost predicate FitsAt(memory: seq<int>, storage: nat, layers: nat, shares: seq<int>, i: nat)
    requires |memory| == |shares| && i < |shares|
  {
    Holds(storage, shares[i], layers, memory[i])
  }

  lemma {:induction false} NodeFitsAt(
    fractions: seq<real>, memory: seq<int>, storage: nat, layers: nat, shares: seq<int>, i: nat)
    requires |fractions| == |memory| == |shares| && layers > 0 && i < |memory| && IsDistribution(fractions)
    requires Fair(shares, layers, Quotas(layers, fractions)) && HasSpareLayer(fractions[i], memory[i], storage, layers)
    ensures FitsAt(memory, storage, layers, shares, i)
  {
    QuotaAt(layers, fractions, i);
    NodeFits(fractions[i], memory[i], storage, layers, shares, Quotas(layers, fractions), i);
    RequiredExactly(storage, shares[i], layers, memory[i]);
  }

  lemma {:induction false} SpareLayersFit(
    fractions: seq<real>, memory: seq<int>, storage: nat, layers: nat, shares: seq<int>)
    requires |fractions| == |memory| && layers > 0 && IsDistribution(fractions)
    requires Fair(shares, layers, Quotas(layers, fractions)) && AllHaveSpareLayer(fractions, memory, storage, layers)
    ensures Fits(memory, storage, layers, shares)
  {
    forall i | 0 <= i < |memory| ensures FitsAt(memory, storage, layers, shares, i) {
      NodeFitsAt(fractions, memory, storage, layers, shares, i);
    }
  }

  /** Exactly the allocations in which every node can hold its shard are accepted. */
  method Validate(memory: seq<int>, storage: nat, layers: nat, shares: seq<int>) returns (ok: bool)
    requires |shares| == |memory| && layers > 0
    ensures ok <==> Fits(memory, storage, layers, shares)
  {
    for i := 0 to |memory|
      invariant forall k :: 0 <= k < i ==> FitsAt(memory, storage, layers, shares, k)
    {
      RequiredExactly(storage, shares[i], layers, memory[i]);
      if Required(storage, shares[i], layers) > memory[i] {
        assert !FitsAt(memory, storage, layers, shares, i);
        return false;
      }
    }
    return true;
  }

  /** Some node cannot hold its part of the allocation that memory and layers determine. */
  ghost predicate TooBig(memory: seq<int>, storage: nat, layers: nat)
  {
    Sum(memory) != 0 && exists xs :: IsAllocation(xs, layers, Fractions(memory)) && |xs| == |memory|
                                     && !Fits(memory, storage, layers, xs)
  }

  lemma {:induction false} TooBigExactly(memory: seq<int>, storage: nat, layers: nat, xs: seq<int>)
    requires Sum(memory) != 0 && |xs| == |memory| && IsAllocation(xs, layers, Fractions(memory))
    ensures TooBig(memory, storage, layers) <==> !Fits(memory, storage, layers, xs)
  {
    if ys :| IsAllocation(ys, layers, Fractions(memory)) && |ys| == |memory| && !Fits(memory, storage, layers, ys) {
      AllocationIsUnique(xs, ys, layers, Fractions(memory));
    }
  }

  lemma {:induction false} RoomyIsNotTooBig(memory: seq<int>, storage: nat, layers: nat)
    requires NonNegative(memory) && Roomy(memory, storage, layers)
    ensures !TooBig(memory, storage, layers)
  {
    var fractions := Fractions(memory);
    FractionsAreDistribution(memory);
    forall xs | IsAllocation(xs, layers, fractions) && |xs| == |memory| ensures Fits(memory, storage, layers, xs) {
      AllocationIsFair(xs, layers, fractions);
      SpareLayersFit(fractions, memory, storage, layers, xs);
    }
  }

  /** `_allocate_and_validate_layers`; the callers have already refused a zero total.
      What is accepted is the allocation that memory and layers determine, and it fits on
      every node; it is refused exactly when there are too few layers or it does not fit,
      and never when every node has a layer to spare. */
  method AllocateAndValidate(memory: seq<int>, storage: nat, layers: nat) returns (r: Result<seq<int>>)
    requires NonNegative(memory) && Sum(memory) != 0
    ensures r.Ok? ==>
              && |r.value| == |memory| && layers > 0 && Sum(r.value) == layers
              && (forall i :: 0 <= i < |memory| ==> r.value[i] >= 1)
              && Fits(memory, storage, layers, r.value)
              && Fair(r.value, layers, Quotas(layers, Fractions(memory)))
              && IsAllocation(r.value, layers, Fractions(memory))
    ensures r.ValueError? <==> layers < |memory| || TooBig(memory, storage, layers)
    ensures Roomy(memory, storage, layers) ==> r.Ok?
  {
    r := Decide(memory, storage, layers);
    if Roomy(memory, storage, layers) {
      RoomyIsNotTooBig(memory, storage, layers);
    }
  }

  method Decide(memory: seq<int>, storage: nat, layers: nat) returns (r: Result<seq<int>>)
    requires NonNegative(memory) && Sum(memory) != 0
    ensures r.Ok? ==>
              && |r.value| == |memory| && layers > 0 && Sum(r.value) == layers
              && (forall i :: 0 <= i < |memory| ==> r.value[i] >= 1)
              && Fits(memory, storage, layers, r.value)
              && Fair(r.value, layers, Quotas(layers, Fractions(memory)))
              && IsAllocation(r.value, layers, Fractions(memory))
    ensures r.ValueError? <==> layers < |memory| || TooBig(memory, storage, layers)
  {
    var a := Allocate(memory, layers);
    if a.ValueError? {
      return ValueError;
    }
    TooBigExactly(memory, storage, layers, a.value);
    var ok := Validate(memory, storage, layers, a.value);
    if !ok {
      return ValueError;
    }
    return a;
  }

  method Allocate(memory: seq<int>, layers: nat) returns (r: Result<seq<int>>)
    requires NonNegative(memory) && Sum(memory) != 0
    ensures r.Ok? <==> memory != [] && layers >= |memory|
    ensures r.Ok? ==>
              && |r.value| == |memory| && layers > 0 && Sum(r.value) == layers
              && (forall i :: 0 <= i < |memory| ==> r.value[i] >= 1)
              && Fair(r.value, layers, Quotas(layers, Fractions(memory)))
              && IsAllocation(r.value, layers, Fractions(memory))
  {
    FractionsAreDistribution(memory);
    r := AllocateLayers(layers, Fractions(memory));
  }

  /** The same, with only what laying out the shards needs. */
  method AcceptedShares(memory: seq<int>, storage: nat, layers: nat) returns (r: Result<seq<int>>)
    requires NonNegative(memory) && Sum(memory) != 0
    ensures r.Ok? ==>
              && |r.value| == |memory| && layers > 0 && Sum(r.value) == layers
              && (forall i :: 0 <= i < |memory| ==> r.value[i] >= 1)
              && Fits(memory, storage, layers, r.value)
    ensures r.ValueError? <==> layers < |memory| || TooBig(memory, storage, layers)
    ensures Roomy(memory, storage, layers) ==> r.Ok?
  {
    r := AllocateAndValidate(memory, storage, layers);
  }

  // ----- shards -----

  /** Where stage `k` starts. */
  function Start(shares: seq<int>, k: nat): int
    requires k <= |shares|
  {
    Sum(shares[..k])
  }

  lemma {:induction false} StartStep(shares: seq<int>, k: nat)
    requires k < |shares|
    ensures Start(shares, k + 1) == Start(shares, k) + shares[k]
  {
    assert shares[..k + 1][..k] == shares[..k];
  }

  lemma {:induction false} StartEnds(shares: seq<int>)
    ensures Start(shares, 0) == 0 && Start(shares, |shares|) == Sum(shares)
  {
    assert shares[..|shares|] == shares;
  }

  /** Consecutive non-empty ranges covering exactly [0, layers). */
  ghost predicate Tiles(shards: seq<Shard>, layers: nat)
  {
    && shards != [] && shards[0].start == 0 && shards[|shards| - 1].end == layers
    && (forall k :: 0 <= k < |shards| ==> shards[k].start < shards[k].end)
    && (forall k :: 0 <= k < |shards| - 1 ==> shards[k].end == shards[k + 1].start)
  }

  /** Every layer is run by exactly one stage of a tiling. */
  lemma {:induction false} EveryLayerOnce(shards: seq<Shard>, layers: nat, l: nat)
    requires Tiles(shards, layers) && l < layers
    ensures exists k :: 0 <= k < |shards| && shards[k].start <= l < shards[k].end
    ensures forall a, b :: 0 <= a < b < |shards| ==> shards[a].end <= shards[b].start
  {
    var k := 0;
    while k < |shards| && shards[k].end <= l
      invariant 0 <= k < |shards| && shards[k].start <= l
      decreases |shards| - k
    {
      k := k + 1;
    }
    forall a, b | 0 <= a < b < |shards| ensures shards[a].end <= shards[b].start {
      EndsBeforeStarts(shards, layers, a, b);
    }
  }

  lemma {:induction false} EndsBeforeStarts(shards: seq<Shard>, layers: nat, a: nat, b: nat)
    requires Tiles(shards, layers) && a < b < |shards|
    ensures shards[a].end <= shards[b].start
    decreases b - a
  {
    assert shards[b - 1].end == shards[b].start;
    if a < b - 1 {
      EndsBeforeStarts(shards, layers, a, b - 1);
      assert shards[b - 1].start < shards[b - 1].end;
    }
  }

  /** The shard of one position: stage `stage` of pipeline `cfgRank`. */
  function StageShard(shares: seq<int>, position: nat, world: nat, layers: nat, cfgRank: nat, stage: nat): Shard
    requires stage < |shares|
  {
    Shard(position, world, Start(shares, stage), Start(shares, stage) + shares[stage], layers, cfgRank, stage, |shares|)
  }

  /** Shard `k` covers stage `k`'s range. */
  ghost predicate Covers(shares: seq<int>, shard: Shard, k: nat)
    requires k < |shares|
  {
    shard.start == Start(shares, k) && shard.end == Start(shares, k) + shares[k]
  }

  lemma {:induction false} StagesMeet(shares: seq<int>, a: Shard, b: Shard, k: nat)
    requires k + 1 < |shares| && Covers(shares, a, k) && Covers(shares, b, k + 1)
    ensures a.end == b.start
  {
    StartStep(shares, k);
  }

  lemma {:induction false} StagesTile(shares: seq<int>, shards: seq<Shard>, layers: nat)
    requires shares != [] && |shards| == |shares| && Sum(shares) == layers
    requires forall k :: 0 <= k < |shares| ==> shares[k] >= 1
    requires forall k :: 0 <= k < |shares| ==> Covers(shares, shards[k], k)
    ensures Tiles(shards, layers)
  {
    StartEnds(shares);
    StartStep(shares, |shares| - 1);
    assert Covers(shares, shards[0], 0) && Covers(shares, shards[|shards| - 1], |shards| - 1);
    forall k | 0 <= k < |shards| - 1 ensures shards[k].end == shards[k + 1].start {
      StagesMeet(shares, shards[k], shards[k + 1], k);
    }
  }

  /** There is a layer for every node, memory at all, and a layer to spare everywhere. */
  ghost predicate Roomy(memory: seq<int>, storage: nat, layers: nat)
  {
    && 0 < |memory| <= layers && Sum(memory) != 0
    && AllHaveSpareLayer(Fractions(memory), memory, storage, layers)
  }

  /** `_get_shard_assignments_for_pure_pipeline`: one shard per node of the cycle. */
  method PurePipeline(memory: seq<int>, storage: nat, layers: nat) returns (r: Result<seq<Shard>>)
    requires NonNegative(memory)
    ensures r.Ok? ==>
              && |r.value| == |memory| && Tiles(r.value, layers)
              && (forall k :: 0 <= k < |memory| ==>
                    && r.value[k].deviceRank == r.value[k].stage == k && r.value[k].worldSize == |memory|
                    && r.value[k].nLayers == layers > 0
                    && Holds(storage, r.value[k].end - r.value[k].start, layers, memory[k]))
    ensures r.ValueError? <==>
            memory == [] || Sum(memory) == 0 || layers < |memory| || TooBig(memory, storage, layers)
    ensures Roomy(memory, storage, layers) ==> r.Ok?
  {
    if memory == [] || Sum(memory) == 0 {
      return ValueError;
    }
    var a := AcceptedShares(memory, storage, layers);
    if a.ValueError? {
      return ValueError;
    }
    var shards := LayOutPipeline(a.value, layers);
    forall k | 0 <= k < |memory| ensures Holds(storage, shards[k].end - shards[k].start, layers, memory[k]) {
      FitsHolds(memory, storage, layers, a.value, k);
    }
    return Ok(shards);
  }

  method LayOutPipeline(shares: seq<int>, layers: nat) returns (shards: seq<Shard>)
    requires shares != [] && Sum(shares) == layers && forall k :: 0 <= k < |shares| ==> shares[k] >= 1
    ensures |shards| == |shares| && Tiles(shards, layers)
    ensures forall k :: 0 <= k < |shares| ==> shards[k].deviceRank == shards[k].stage == k
    ensures forall k :: 0 <= k < |shares| ==> shards[k].worldSize == |shares| && shards[k].nLayers == layers
    ensures forall k :: 0 <= k < |shares| ==> shards[k].end - shards[k].start == shares[k]
  {
    shards := [];
    for k := 0 to |shares|
      invariant |shards| == k
      invariant forall i :: 0 <= i < k ==> shards[i] == StageShard(shares, i, |shares|, layers, 0, i)
    {
      shards := shards + [StageShard(shares, k, |shares|, layers, 0, k)];
    }
    StagesTile(shares, shards, layers);
  }

  ghost predicate SameStage(a: Shard, b: Shard, stage: nat, stages: nat)
  {
    && a.cfgRank == 0 && b.cfgRank == 1 && a.stage == b.stage == stage && a.stages == b.stages == stages
    && a.start == b.start && a.end == b.end
  }

  /** The mirrored layout: positions `k` and `world - 1 - k` run the same stage, one
      for each prompt, and the two last stages are neighbours. */
  ghost predicate Mirrored(shards: seq<Shard>, half: nat, layers: nat)
  {
    && half > 0 && |shards| == 2 * half && Tiles(shards[..half], layers)
    && (forall k :: 0 <= k < half ==> SameStage(shards[k], shards[2 * half - 1 - k], k, half))
    && shards[half - 1].end == layers && shards[half].end == layers
  }

  function CfgShard(shares: seq<int>, position: nat, layers: nat): Shard
    requires position < 2 * |shares|
  {
    if position < |shares| then StageShard(shares, position, 2 * |shares|, layers, 0, position)
    else StageShard(shares, position, 2 * |shares|, layers, 1, 2 * |shares| - 1 - position)
  }

  lemma {:induction false} CfgShardsMirror(shares: seq<int>, shards: seq<Shard>, layers: nat)
    requires shares != [] && Sum(shares) == layers && |shards| == 2 * |shares|
    requires forall k :: 0 <= k < |shares| ==> shares[k] >= 1
    requires forall p :: 0 <= p < |shards| ==> shards[p] == CfgShard(shares, p, layers)
    ensures Mirrored(shards, |shares|, layers)
  {
    var half := |shares|;
    var first := shards[..half];
    forall k | 0 <= k < half
      ensures Covers(shares, first[k], k) && SameStage(shards[k], shards[2 * half - 1 - k], k, half)
    {
      assert shards[k] == CfgShard(shares, k, layers) && shards[2 * half - 1 - k]
             == CfgShard(shares, 2 * half - 1 - k, layers);
    }
    StagesTile(shares, first, layers);
    assert first[half - 1] == shards[half - 1] && SameStage(shards[half - 1], shards[half], half - 1, half);
  }

  method LayOutCfg(shares: seq<int>, layers: nat) returns (shards: seq<Shard>)
    requires shares != [] && Sum(shares) == layers && forall k :: 0 <= k < |shares| ==> shares[k] >= 1
    ensures Mirrored(shards, |shares|, layers)
    ensures forall k :: 0 <= k < |shards| ==> shards[k].deviceRank == k && shards[k].worldSize == |shards|
    ensures forall k :: 0 <= k < |shards| ==> shards[k].nLayers == layers
    ensures forall k :: 0 <= k < |shares| ==> shards[k].end - shards[k].start == shares[k]
  {
    shards := [];
    for p := 0 to 2 * |shares|
      invariant |shards| == p
      invariant forall i :: 0 <= i < p ==> shards[i] == CfgShard(shares, i, layers)
    {
      shards := shards + [CfgShard(shares, p, layers)];
    }
    CfgShardsMirror(shares, shards, layers);
  }

  /** `_get_shard_assignments_for_cfg_parallel`: only the first half is validated. */
  method CfgParallel(memory: seq<int>, storage: nat, layers: nat) returns (r: Result<seq<Shard>>)
    requires NonNegative(memory) && |memory| % 2 == 0
    ensures r.Ok? ==>
              && Mirrored(r.value, |memory| / 2, layers)
              && (forall k :: 0 <= k < |memory| ==>
                    && r.value[k].deviceRank == k && r.value[k].worldSize == |memory|
                    && r.value[k].nLayers == layers > 0)
              && (forall k :: 0 <= k < |memory| / 2 ==>
                    Holds(storage, r.value[k].end - r.value[k].start, layers, memory[k]))
    ensures var first := memory[..|memory| / 2];
            r.ValueError? <==> first == [] || Sum(first) == 0 || layers < |first| || TooBig(first, storage, layers)
    ensures var first := memory[..|memory| / 2];
            Roomy(first, storage, layers) ==> r.Ok?
  {
    r := CfgOverHalf(memory, |memory| / 2, storage, layers);
  }

  method CfgOverHalf(memory: seq<int>, half: nat, storage: nat, layers: nat) returns (r: Result<seq<Shard>>)
    requires NonNegative(memory) && |memory| == 2 * half
    ensures r.Ok? ==>
              && Mirrored(r.value, half, layers)
              && (forall k :: 0 <= k < |memory| ==>
                    && r.value[k].deviceRank == k && r.value[k].worldSize == |memory|
                    && r.value[k].nLayers == layers > 0)
              && (forall k :: 0 <= k < half ==>
                    Holds(storage, r.value[k].end - r.value[k].start, layers, memory[k]))
    ensures var first := memory[..half];
            r.ValueError? <==> first == [] || Sum(first) == 0 || layers < |first| || TooBig(first, storage, layers)
    ensures var first := memory[..half];
            Roomy(first, storage, layers) ==> r.Ok?
  {
    if half == 0 {
      return ValueError;
    }
    var first := memory[..half];
    if Sum(first) == 0 {
      return ValueError;
    }
    var a := AcceptedShares(first, storage, layers);
    if a.ValueError? {
      return ValueError;
    }
    var shards := LayOutCfg(a.value, layers);
    forall k | 0 <= k < half ensures Holds(storage, shards[k].end - shards[k].start, layers, memory[k]) {
      assert shards[k].end - shards[k].start == a.value[k] && first[k] == memory[k];
      FitsHolds(first, storage, layers, a.value, k);
    }
    return Ok(shards);
  }

  /** The nodes whose memory decides: all, or the first half of a CFG ring. */
  function Validated(memory: seq<int>, usesCfg: bool): seq<int>
  {
    if usesCfg && |memory| >= 2 && |memory| % 2 == 0 then memory[..|memory| / 2] else memory
  }

  /** `get_shard_assignments_for_pipeline_parallel`: CFG models use the mirrored layout
      exactly on even worlds. */
  method PipelineParallel(memory: seq<int>, storage: nat, layers: nat, usesCfg: bool) returns (r: Result<seq<Shard>>)
    requires NonNegative(memory)
    ensures r.Ok? && usesCfg && |memory| % 2 == 0 ==> Mirrored(r.value, |memory| / 2, layers)
    ensures r.Ok? && !(usesCfg && |memory| % 2 == 0) ==> |r.value| == |memory| && Tiles(r.value, layers)
    ensures r.Ok? ==> layers > 0 && |r.value| == |memory|
    ensures r.Ok? ==> forall k :: 0 <= k < |memory| ==> r.value[k].deviceRank == k && r.value[k].worldSize == |memory|
    ensures r.Ok? ==> forall k :: 0 <= k < |Validated(memory, usesCfg)| ==>
                        Holds(storage, r.value[k].end - r.value[k].start, layers, memory[k])
    ensures r.Ok? ==> forall k :: 0 <= k < |memory| ==> r.value[k].nLayers == layers
    ensures var nodes := Validated(memory, usesCfg);
            && (r.ValueError? <==>
                nodes == [] || Sum(nodes) == 0 || layers < |nodes| || TooBig(nodes, storage, layers))
            && (Roomy(nodes, storage, layers) ==> r.Ok?)
  {
    if usesCfg && |memory| >= 2 && |memory| % 2 == 0 {
      r := CfgParallel(memory, storage, layers);
    } else {
      r := PurePipeline(memory, storage, layers);
    }
  }
}
