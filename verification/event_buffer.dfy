/** Resequencing buffers (src/exo/utils/event_buffer.py).

    `Buffer` and `MultiBuffer` give the meaning of each operation on values;
    `OrderedBuffer` and `MultiSourceBuffer` are the mutable objects, proved
    against them.  Indices are natural numbers because the wire types demand
    `origin_idx >= 0`. */
module EventBuffer {

  datatype Buffer<T> = Buffer(store: map<nat, T>, next: nat) {

    /** The assertion that `ingest` makes about a repeated index. */
    ghost predicate PayloadAgrees(idx: nat, t: T)
    {
      next <= idx && idx in store ==> store[idx] == t
    }

    function Ingest(idx: nat, t: T): Buffer<T>
    {
      if idx < next || idx in store then this else this.(store := store[idx := t])
    }

    /** Nothing is ready to be released. */
    predicate Settled()
    {
      next !in store
    }

    function Pop(): Buffer<T>
      requires next in store
    {
      Buffer(store - {next}, next + 1)
    }

    /** What a drain releases, in order. */
    function Released(): seq<T>
      decreases |store|
    {
      if next in store then
        PopShrinks();
        [store[next]] + Pop().Released()
      else []
    }

    /** The same, each event with the index it was stored under. */
    function ReleasedIndexed(): seq<(nat, T)>
      decreases |store|
    {
      if next in store then
        PopShrinks();
        [(next, store[next])] + Pop().ReleasedIndexed()
      else []
    }

    /** What a drain leaves behind. */
    function Rest(): Buffer<T>
      decreases |store|
    {
      if next in store then
        PopShrinks();
        Pop().Rest()
      else this
    }

    lemma {:induction false} PopShrinks()
      requires next in store
      ensures |Pop().store| < |store|
    {
      assert store.Keys == Pop().store.Keys + {next};
      assert |store.Keys| == |Pop().store.Keys| + 1;
    }
  }

  function Empty<T>(): Buffer<T>
  {
    Buffer(map[], 0)
  }

  /** A drain releases the maximal consecutive run at `next`, keeps every other
      entry, and leaves nothing releasable. */
  lemma {:induction false} DrainReleasesMaximalRun<T>(b: Buffer<T>)
    ensures b.Rest().next == b.next + |b.Released()|
    ensures forall i :: b.next <= i < b.Rest().next ==> i in b.store && b.Released()[i - b.next] == b.store[i]
    ensures b.Rest().next !in b.store
    ensures forall i :: i in b.Rest().store <==> i in b.store && !(b.next <= i < b.Rest().next)
    ensures forall i :: i in b.Rest().store ==> b.Rest().store[i] == b.store[i]
  {
    DrainAdvances(b);
    forall i: nat | b.next <= i < b.Rest().next ensures i in b.store && b.Released()[i - b.next] == b.store[i] {
      DrainReleases(b, i);
    }
    forall i: nat ensures i in b.Rest().store <==> i in b.store && !(b.next <= i < b.Rest().next)
      ensures i in b.Rest().store ==> b.Rest().store[i] == b.store[i]
    {
      DrainKeeps(b, i);
    }
    DrainKeeps(b, b.Rest().next);
  }

  lemma {:induction false} DrainAdvances<T>(b: Buffer<T>)
    ensures b.Rest().next == b.next + |b.Released()| && b.Rest().Settled()
    decreases |b.store|
  {
    if b.next in b.store {
      b.PopShrinks();
      DrainAdvances(b.Pop());
    }
  }

  lemma {:induction false} DrainReleases<T>(b: Buffer<T>, i: nat)
    requires b.next <= i < b.next + |b.Released()|
    ensures i in b.store && b.Released()[i - b.next] == b.store[i]
    decreases |b.store|
  {
    if i > b.next {
      b.PopShrinks();
      DrainReleases(b.Pop(), i);
    }
  }

  lemma {:induction false} DrainKeeps<T>(b: Buffer<T>, i: nat)
    ensures i in b.Rest().store <==> i in b.store && !(b.next <= i < b.Rest().next)
    ensures i in b.Rest().store ==> b.Rest().store[i] == b.store[i]
    decreases |b.store|
  {
    if b.next in b.store {
      b.PopShrinks();
      DrainAdvances(b.Pop());
      DrainKeeps(b.Pop(), i);
    }
  }

  lemma {:induction false} IndexedRelease<T>(b: Buffer<T>)
    ensures |b.ReleasedIndexed()| == |b.Released()|
    ensures forall k :: 0 <= k < |b.Released()| ==> b.ReleasedIndexed()[k] == (b.next + k, b.Released()[k])
    decreases |b.store|
  {
    if b.next in b.store {
      b.PopShrinks();
      IndexedRelease(b.Pop());
    }
  }

  class OrderedBuffer<T(==)> {
    var store: map<nat, T>
    var next: nat

    constructor ()
      ensures View() == Empty<T>()
    {
      store, next := map[], 0;
    }

    function View(): Buffer<T>
      reads this
    {
      Buffer(store, next)
    }

    /** `ok` is false when the source's assertion would fail; the buffer is then
        left as it was. */
    method Ingest(idx: nat, t: T) returns (ok: bool)
      modifies this
      ensures ok == old(View()).PayloadAgrees(idx, t)
      ensures View() == old(View()).Ingest(idx, t)
    {
      if idx < next {
        return true;
      }
      if idx in store {
        return store[idx] == t;
      }
      store := store[idx := t];
      return true;
    }

    method Drain() returns (ret: seq<T>)
      modifies this
      ensures ret == old(View()).Released()
      ensures View() == old(View()).Rest()
    {
      ret := [];
      while next in store
        invariant ret + View().Released() == old(View()).Released()
        invariant View().Rest() == old(View()).Rest()
        decreases |store|
      {
        View().PopShrinks();
        ret := ret + [store[next]];
        store := store - {next};
        next := next + 1;
      }
    }

    method DrainIndexed() returns (ret: seq<(nat, T)>)
      modifies this
      ensures ret == old(View()).ReleasedIndexed()
      ensures View() == old(View()).Rest()
    {
      ret := [];
      while next in store
        invariant ret + View().ReleasedIndexed() == old(View()).ReleasedIndexed()
        invariant View().Rest() == old(View()).Rest()
        decreases |store|
      {
        View().PopShrinks();
        ret := ret + [(next, store[next])];
        store := store - {next};
        next := next + 1;
      }
    }
  }

  // ----- several sources -----

  /** `order` is the insertion order of the dictionary of per-source buffers,
      which is the order in which `drain` visits them. */
  datatype MultiBuffer<S, T> = MultiBuffer(order: seq<S>, stores: map<S, Buffer<T>>) {

    ghost predicate WellFormed()
    {
      && (set s | s in order) == stores.Keys
      && (forall i, j :: 0 <= i < j < |order| ==> order[i] != order[j])
    }

    function At(source: S): Buffer<T>
    {
      if source in stores then stores[source] else Empty()
    }

    function Ingest(idx: nat, t: T, source: S): MultiBuffer<S, T>
    {
      MultiBuffer(if source in stores then order else order + [source],
                  stores[source := At(source).Ingest(idx, t)])
    }

    /** The drained events, each with the source it came from. */
    ghost function Released(): seq<(S, T)>
    {
      ReleasedBy(this, order)
    }

    ghost function Rest(): MultiBuffer<S, T>
    {
      MultiBuffer(order, map s | s in stores :: stores[s].Rest())
    }
  }

  ghost function Tag<S, T>(s: S, es: seq<T>): seq<(S, T)>
  {
    seq(|es|, i requires 0 <= i < |es| => (s, es[i]))
  }

  ghost function ReleasedBy<S, T>(m: MultiBuffer<S, T>, order: seq<S>): seq<(S, T)>
  {
    if order == [] then []
    else ReleasedBy(m, order[..|order| - 1])
         + Tag(order[|order| - 1], m.At(order[|order| - 1]).Released())
  }

  /** When only `source` can release something, a drain of all sources is a
      drain of that one, whatever the visiting order. */
  lemma {:induction false} OnlyOneSourceReleases<S, T>(m: MultiBuffer<S, T>, order: seq<S>, source: S)
    requires forall i, j :: 0 <= i < j < |order| ==> order[i] != order[j]
    requires forall s :: s in order && s != source ==> m.At(s).Settled()
    ensures ReleasedBy(m, order)
         == if source in order then Tag(source, m.At(source).Released()) else []
  {
    if order != [] {
      var front, last := order[..|order| - 1], order[|order| - 1];
      assert order == front + [last];
      OnlyOneSourceReleases(m, front, source);
      if last == source {
        assert source !in front;
        assert ReleasedBy(m, front) == [];
      } else {
        assert m.At(last).Released() == [];
        assert Tag(last, m.At(last).Released()) == [];
        assert source in order <==> source in front;
      }
    }
  }

  ghost function Untagged<S, T>(es: seq<(S, T)>): seq<T>
  {
    seq(|es|, i requires 0 <= i < |es| => es[i].1)
  }

  ghost function VisitAll<S, T>(m: MultiBuffer<S, T>, done: seq<S>): map<S, Buffer<T>>
  {
    map s | s in m.stores :: if s in done then m.stores[s].Rest() else m.stores[s]
  }

  lemma {:induction false} VisitStep<S, T>(m: MultiBuffer<S, T>, i: nat)
    requires m.WellFormed() && i < |m.order|
    ensures m.order[i] in m.stores
    ensures var s := m.order[i]; var done := VisitAll(m, m.order[..i]);
            done[s] == m.stores[s] && VisitAll(m, m.order[..i + 1]) == done[s := done[s].Rest()]
  {
    assert m.order[i] in (set s | s in m.order);
    assert m.order[..i + 1] == m.order[..i] + [m.order[i]];
  }

  lemma {:induction false} VisitedAll<S, T>(m: MultiBuffer<S, T>)
    requires m.WellFormed()
    ensures VisitAll(m, m.order) == m.Rest().stores
  {
    assert forall s :: s in m.stores ==> s in (set x | x in m.order);
  }

  lemma {:induction false} ReleasedByStep<S, T>(m: MultiBuffer<S, T>, order: seq<S>, i: nat)
    requires i < |order|
    ensures Untagged(ReleasedBy(m, order[..i + 1])) == Untagged(ReleasedBy(m, order[..i])) + m.At(order[i]).Released()
  {
    assert order[..i + 1][..i] == order[..i];
    var a, b := ReleasedBy(m, order[..i]), m.At(order[i]).Released();
    assert ReleasedBy(m, order[..i + 1]) == a + Tag(order[i], b);
  }

  class MultiSourceBuffer<S(==), T(==)> {
    var order: seq<S>
    var stores: map<S, OrderedBuffer<T>>

    constructor ()
      ensures Valid() && View() == MultiBuffer([], map[])
    {
      order, stores := [], map[];
    }

    /** Each source has its own buffer object. */
    ghost predicate Valid()
      reads this
    {
      && (set s | s in order) == stores.Keys
      && (forall i, j :: 0 <= i < j < |order| ==> order[i] != order[j])
      && (forall s, r :: s in stores && r in stores && s != r ==> stores[s] != stores[r])
    }

    ghost function View(): MultiBuffer<S, T>
      reads this, stores.Values
    {
      MultiBuffer(order, map s | s in stores :: stores[s].View())
    }

    method AddSource(source: S)
      requires Valid() && source !in stores
      modifies this
      ensures Valid() && fresh(stores.Values - old(stores.Values)) && source in stores
      ensures View() == MultiBuffer(old(order) + [source], old(View()).stores[source := Empty()])
    {
      var b := new OrderedBuffer<T>();
      order, stores := order + [source], stores[source := b];
    }

    method Ingest(idx: nat, t: T, source: S) returns (ok: bool)
      requires Valid()
      modifies this, stores.Values
      ensures Valid() && fresh(stores.Values - old(stores.Values))
      ensures ok == old(View()).At(source).PayloadAgrees(idx, t)
      ensures View() == old(View()).Ingest(idx, t, source)
    {
      if source !in stores {
        AddSource(source);
      }
      ghost var known := View();
      assert known.At(source) == old(View()).At(source) && known.stores[source] == known.At(source);
      ok := IngestKnown(idx, t, source);
    }

    method IngestKnown(idx: nat, t: T, source: S) returns (ok: bool)
      requires Valid() && source in stores
      modifies stores.Values
      ensures ok == old(View()).stores[source].PayloadAgrees(idx, t)
      ensures View().stores == old(View()).stores[source := old(View()).stores[source].Ingest(idx, t)]
    {
      var buffer := stores[source];
      ok := buffer.Ingest(idx, t);
    }

    method DrainSource(source: S) returns (out: seq<T>)
      requires Valid() && source in stores
      modifies stores.Values
      ensures out == old(View()).stores[source].Released()
      ensures View().stores == old(View()).stores[source := old(View()).stores[source].Rest()]
    {
      var store := stores[source];
      out := store.Drain();
    }

    method DrainNext(i: nat, ghost before: MultiBuffer<S, T>) returns (out: seq<T>)
      requires Valid() && before.WellFormed() && before.order == order && i < |order|
      requires View().stores == VisitAll(before, order[..i])
      modifies stores.Values
      ensures out == before.At(order[i]).Released() && View().stores == VisitAll(before, order[..i + 1])
    {
      VisitStep(before, i);
      out := DrainSource(order[i]);
    }

    /** Releases, source by source, what each buffer can release. */
    method Drain() returns (ret: seq<T>)
      requires Valid()
      modifies stores.Values
      ensures Valid()
      ensures ret == Untagged(old(View()).Released())
      ensures View() == old(View()).Rest()
    {
      ret := [];
      ghost var before := View();
      assert before.WellFormed();
      for i := 0 to |order|
        invariant ret == Untagged(ReleasedBy(before, order[..i]))
        invariant View().stores == VisitAll(before, order[..i])
      {
        ReleasedByStep(before, order, i);
        var out := DrainNext(i, before);
        ret := ret + out;
      }
      assert order[..|order|] == order;
      VisitedAll(before);
      assert View().order == before.order && View().stores == before.Rest().stores;
    }
  }
}
