/** Splitting a model's layers over nodes in proportion to their memory
    (`allocate_layers_proportionally` and `_allocate_and_validate_layers`,
    src/exo/master/placement_utils.py).  Memory fractions are exact reals. */
module LayerAllocation {
  import opened Common

  // ----- sums -----

  function Sum(xs: seq<int>): int
  {
    if xs == [] then 0 else Sum(xs[..|xs| - 1]) + xs[|xs| - 1]
  }

  ghost function SumReal(xs: seq<real>): real
  {
    if xs == [] then 0.0 else SumReal(xs[..|xs| - 1]) + xs[|xs| - 1]
  }

  lemma {:induction false} SumUpdate(xs: seq<int>, i: nat, x: int)
    requires i < |xs|
    ensures Sum(xs[i := x]) == Sum(xs) - xs[i] + x
  {
    if i == |xs| - 1 {
      assert xs[i := x][..i] == xs[..i];
    } else {
      SumUpdate(xs[..|xs| - 1], i, x);
      assert xs[i := x][..|xs| - 1] == xs[..|xs| - 1][i := x];
    }
  }

  lemma {:induction false} SumSmall(xs: seq<int>, zero: nat)
    requires zero < |xs| && xs[zero] == 0 && forall i :: 0 <= i < |xs| ==> xs[i] <= 1
    ensures Sum(xs) < |xs|
  {
    if zero == |xs| - 1 {
      SumAtMostLength(xs[..zero]);
    } else {
      SumSmall(xs[..|xs| - 1], zero);
    }
  }

  lemma {:induction false} SumAtMostLength(xs: seq<int>)
    requires forall i :: 0 <= i < |xs| ==> xs[i] <= 1
    ensures Sum(xs) <= |xs|
  {
    if xs != [] {
      SumAtMostLength(xs[..|xs| - 1]);
    }
  }

  // ----- quotas -----

  ghost predicate IsDistribution(fractions: seq<real>)
  {
    (forall i :: 0 <= i < |fractions| ==> 0.0 <= fractions[i]) && SumReal(fractions) == 1.0
  }

  function Quotas(total: nat, fractions: seq<real>): seq<real>
  {
    seq(|fractions|, i requires 0 <= i < |fractions| => fractions[i] * total as real)
  }

  function Floors(quotas: seq<real>): seq<int>
  {
    seq(|quotas|, i requires 0 <= i < |quotas| => quotas[i].Floor)
  }

  function Remainders(quotas: seq<real>): seq<real>
  {
    seq(|quotas|, i requires 0 <= i < |quotas| => quotas[i] - quotas[i].Floor as real)
  }

  function Ceil(q: real): int
  {
    if q == q.Floor as real then q.Floor else q.Floor + 1
  }

  lemma {:induction false} QuotasSum(total: nat, fractions: seq<real>)
    ensures SumReal(Quotas(total, fractions)) == SumReal(fractions) * total as real
  {
    if fractions != [] {
      var front := fractions[..|fractions| - 1];
      QuotasSum(total, front);
      var q := Quotas(total, fractions);
      forall i | 0 <= i < |front| ensures q[i] == Quotas(total, front)[i] {
        assert front[i] == fractions[i];
      }
      assert q[..|front|] == Quotas(total, front);
      var a, b, t := SumReal(front), fractions[|front|], total as real;
      assert (a + b) * t == a * t + b * t;
    }
  }

  lemma {:induction false} RemaindersSum(quotas: seq<real>)
    ensures SumReal(Remainders(quotas)) == SumReal(quotas) - Sum(Floors(quotas)) as real
    ensures 0.0 <= SumReal(Remainders(quotas)) <= |quotas| as real
    ensures quotas != [] ==> SumReal(Remainders(quotas)) < |quotas| as real
  {
    if quotas != [] {
      var front := quotas[..|quotas| - 1];
      RemaindersSum(front);
      assert Remainders(quotas)[..|front|] == Remainders(front);
      assert Floors(quotas)[..|front|] == Floors(front);
    }
  }

  // ----- sorted(range(n), key=..., reverse=True) -----

  ghost predicate InRange(order: seq<nat>, n: nat)
  {
    forall k :: 0 <= k < |order| ==> order[k] < n
  }

  /** Python's descending sort keeps the order of equal keys. */
  function Insert(x: nat, order: seq<nat>, key: seq<real>): seq<nat>
    requires x < |key| && InRange(order, |key|)
  {
    if order == [] || key[x] > key[order[0]] then [x] + order
    else [order[0]] + Insert(x, order[1..], key)
  }

  function Sorted(n: nat, key: seq<real>): (order: seq<nat>)
    requires n <= |key|
    ensures InRange(order, n)
  {
    if n == 0 then []
    else
      InsertInRange(n - 1, Sorted(n - 1, key), key, n);
      Insert(n - 1, Sorted(n - 1, key), key)
  }

  lemma {:induction false} InsertInRange(x: nat, order: seq<nat>, key: seq<real>, n: nat)
    requires x < n <= |key| && InRange(order, n)
    ensures InRange(Insert(x, order, key), n)
  {
    if !(order == [] || key[x] > key[order[0]]) {
      InsertInRange(x, order[1..], key, n);
    }
  }

  lemma {:induction false} InsertMembers(x: nat, order: seq<nat>, key: seq<real>)
    requires x < |key| && InRange(order, |key|)
    ensures forall i :: i in Insert(x, order, key) <==> i == x || i in order
    ensures |Insert(x, order, key)| == |order| + 1
  {
    if !(order == [] || key[x] > key[order[0]]) {
      InsertMembers(x, order[1..], key);
      assert order == [order[0]] + order[1..];
    }
  }

  /** Comes before in the sort: a larger key, or the same key and a smaller index. */
  ghost predicate Before(i: nat, j: nat, key: seq<real>)
    requires i < |key| && j < |key|
  {
    key[i] > key[j] || (key[i] == key[j] && i < j)
  }

  ghost predicate Descending(order: seq<nat>, key: seq<real>)
    requires InRange(order, |key|)
  {
    forall a, b :: 0 <= a < b < |order| ==> Before(order[a], order[b], key)
  }

  lemma {:induction false} InsertDescending(x: nat, order: seq<nat>, key: seq<real>)
    requires x < |key| && InRange(order, x) && Descending(order, key)
    ensures InRange(Insert(x, order, key), |key|) && Descending(Insert(x, order, key), key)
  {
    InsertInRange(x, order, key, |key|);
    if !(order == [] || key[x] > key[order[0]]) {
      InsertDescending(x, order[1..], key);
      InsertMembers(x, order[1..], key);
      var tail := Insert(x, order[1..], key);
      forall b | 0 <= b < |tail| ensures Before(order[0], tail[b], key) {
        assert tail[b] in tail;
      }
    }
  }

  ghost function SumOver(order: seq<nat>, key: seq<real>): real
    requires InRange(order, |key|)
  {
    if order == [] then 0.0 else key[order[0]] + SumOver(order[1..], key)
  }

  lemma {:induction false} InsertSum(x: nat, order: seq<nat>, key: seq<real>)
    requires x < |key| && InRange(order, |key|)
    ensures InRange(Insert(x, order, key), |key|)
    ensures SumOver(Insert(x, order, key), key) == key[x] + SumOver(order, key)
  {
    InsertInRange(x, order, key, |key|);
    if !(order == [] || key[x] > key[order[0]]) {
      InsertSum(x, order[1..], key);
    }
  }

  /** The sort is a descending arrangement of all the indices. */
  lemma {:induction false} SortedMembers(n: nat, key: seq<real>)
    requires n <= |key|
    ensures |Sorted(n, key)| == n && forall i: nat :: i < n ==> i in Sorted(n, key)
  {
    if n > 0 {
      SortedMembers(n - 1, key);
      InsertMembers(n - 1, Sorted(n - 1, key), key);
    }
  }

  lemma {:induction false} SortedDescending(n: nat, key: seq<real>)
    requires n <= |key|
    ensures Descending(Sorted(n, key), key)
  {
    if n > 0 {
      SortedDescending(n - 1, key);
      InsertDescending(n - 1, Sorted(n - 1, key), key);
    }
  }

  lemma {:induction false} SortedProps(n: nat, key: seq<real>)
    requires n <= |key|
    ensures |Sorted(n, key)| == n && Descending(Sorted(n, key), key)
    ensures forall i: nat :: i < n ==> i in Sorted(n, key)
  {
    SortedMembers(n, key);
    SortedDescending(n, key);
  }

  lemma {:induction false} SortedSum(n: nat, key: seq<real>)
    requires n <= |key|
    ensures SumOver(Sorted(n, key), key) == SumReal(key[..n])
  {
    if n > 0 {
      SortedSum(n - 1, key);
      InsertSum(n - 1, Sorted(n - 1, key), key);
      assert key[..n][..n - 1] == key[..n - 1];
    }
  }

  /** A run of values below 1 whose tail from `i` is all zero sums to at most `i`. */
  lemma {:induction false} ZeroTail(order: seq<nat>, key: seq<real>, i: nat)
    requires InRange(order, |key|) && i < |order|
    requires forall k :: 0 <= k < |key| ==> 0.0 <= key[k] < 1.0
    requires forall k :: i <= k < |order| ==> key[order[k]] == 0.0
    ensures SumOver(order, key) <= i as real && (i > 0 ==> SumOver(order, key) < i as real)
  {
    if |order| == 1 {
    } else if i == 0 {
      ZeroTail(order[1..], key, 0);
    } else {
      ZeroTail(order[1..], key, i - 1);
    }
  }

  // ----- largest remainder -----

  ghost function Leftover(total: nat, fractions: seq<real>): int
  {
    total - Sum(Floors(Quotas(total, fractions)))
  }

  /** The remainder loop stays in range and only reaches positive remainders. */
  lemma {:induction false} LeftoverInRange(total: nat, fractions: seq<real>)
    requires fractions != [] && IsDistribution(fractions)
    ensures 0 <= Leftover(total, fractions) < |fractions|
    ensures var key := Remainders(Quotas(total, fractions)); var order := Sorted(|key|, key);
            |order| == |key| && forall k :: 0 <= k < Leftover(total, fractions) ==> key[order[k]] > 0.0
  {
    var quotas := Quotas(total, fractions);
    var key := Remainders(quotas);
    var order, left := Sorted(|key|, key), Leftover(total, fractions);
    QuotasSum(total, fractions);
    RemaindersSum(quotas);
    SortedProps(|key|, key);
    SortedSum(|key|, key);
    assert key[..|key|] == key;
    assert SumOver(order, key) == left as real;
    forall k | 0 <= k < left ensures key[order[k]] > 0.0 {
      if key[order[k]] == 0.0 {
        forall m | k <= m < |order| ensures key[order[m]] == 0.0 {
        }
        ZeroTail(order, key, k);
      }
    }
  }

  /** Who is served comes before who is not. */
  lemma {:induction false} ServedFirst(order: seq<nat>, key: seq<real>, left: nat, i: nat, j: nat)
    requires InRange(order, |key|) && Descending(order, key) && left <= |order|
    requires i < |key| && j < |key| && j in order && i in order[..left] && j !in order[..left]
    ensures Before(i, j, key)
  {
    var a :| 0 <= a < left && order[a] == i;
    var b :| 0 <= b < |order| && order[b] == j;
    assert b >= left;
  }

  ghost function Bump(i: nat, order: seq<nat>, k: nat): int
    requires k <= |order|
  {
    if i in order[..k] then 1 else 0
  }

  lemma {:induction false} QuotaOrder(total: nat, fractions: seq<real>, i: nat, j: nat)
    requires i < |fractions| && j < |fractions| && total > 0 && fractions[i] > fractions[j]
    ensures Quotas(total, fractions)[i] > Quotas(total, fractions)[j]
  {
  }

  /** The largest-remainder shares: each the floor or the ceiling of its quota,
      summing to the total, rounded up in order of remainder. */
  ghost predicate IsLargestRemainder(result: seq<int>, total: nat, quotas: seq<real>)
  {
    && |result| == |quotas| && Sum(result) == total
    && (forall i :: 0 <= i < |result| ==> quotas[i].Floor <= result[i] <= Ceil(quotas[i]))
    && (forall i, j :: && 0 <= i < |result| && 0 <= j < |result|
                       && result[i] > quotas[i].Floor && result[j] == quotas[j].Floor
                       ==> Before(i, j, Remainders(quotas)))
  }

  lemma {:induction false} ServedSharesQualify(total: nat, fractions: seq<real>, result: seq<int>)
    requires fractions != [] && IsDistribution(fractions)
    requires var key := Remainders(Quotas(total, fractions)); var order := Sorted(|key|, key);
             && |result| == |fractions| && Sum(result) == total
             && 0 <= Leftover(total, fractions) <= |order|
             && forall i :: 0 <= i < |result| ==>
                  result[i] == Floors(Quotas(total, fractions))[i] + Bump(i, order, Leftover(total, fractions))
    ensures IsLargestRemainder(result, total, Quotas(total, fractions))
  {
    var quotas, left := Quotas(total, fractions), Leftover(total, fractions);
    var key := Remainders(quotas);
    var order := Sorted(|key|, key);
    LeftoverInRange(total, fractions);
    SortedProps(|key|, key);
    forall i | 0 <= i < |result| ensures quotas[i].Floor <= result[i] <= Ceil(quotas[i]) {
      if i in order[..left] {
        var k :| 0 <= k < left && order[k] == i;
        assert key[order[k]] > 0.0;
      }
    }
    forall i, j | 0 <= i < |result| && 0 <= j < |result| && result[i] > quotas[i].Floor && result[j] == quotas[j].Floor
      ensures Before(i, j, key)
    {
      ServedFirst(order, key, left, i, j);
    }
  }

  method LargestRemainder(total: nat, fractions: seq<real>) returns (result: seq<int>)
    requires fractions != [] && IsDistribution(fractions)
    ensures IsLargestRemainder(result, total, Quotas(total, fractions))
  {
    var quotas := Quotas(total, fractions);
    var floors := Floors(quotas);
    var key := Remainders(quotas);
    var order := Sorted(|key|, key);
    LeftoverInRange(total, fractions);
    SortedProps(|key|, key);
    result := floors;
    var left := total - Sum(floors);
    for k := 0 to left
      invariant |result| == |floors| && Sum(result) == Sum(floors) + k
      invariant forall i :: 0 <= i < |result| ==> result[i] == floors[i] + Bump(i, order, k)
    {
      var next := order[k];
      assert order[..k + 1] == order[..k] + [next];
      assert next !in order[..k];
      SumUpdate(result, next, result[next] + 1);
      result := result[next := result[next] + 1];
    }
    ServedSharesQualify(total, fractions, result);
  }

  /** A larger quota never gets fewer layers than a smaller one. */
  lemma {:induction false} LargestRemainderIsMonotone(result: seq<int>, total: nat, quotas: seq<real>, i: nat, j: nat)
    requires IsLargestRemainder(result, total, quotas)
    requires i < |quotas| && j < |quotas| && quotas[i] > quotas[j]
    ensures result[i] >= result[j]
  {
    assert result[j] > quotas[j].Floor && result[i] == quotas[i].Floor ==> Before(j, i, Remainders(quotas));
  }

  // ----- minimum one per node -----

  method ArgMax(xs: seq<int>) returns (m: nat)
    requires xs != []
    ensures IsFirstMax(xs, m)
  {
    m := 0;
    for j := 1 to |xs|
      invariant m < |xs| && m < j
      invariant forall k :: 0 <= k < j ==> xs[k] <= xs[m] && (xs[k] == xs[m] ==> m <= k)
    {
      if xs[j] > xs[m] {
        m := j;
      }
    }
  }

  function AtLeastOne(q: real): int
  {
    if Ceil(q) < 1 then 1 else Ceil(q)
  }

  /** Never above the ceiling of the quota (or one), and a node with the larger
      quota is at most one layer behind. */
  ghost predicate Fair(result: seq<int>, total: nat, quotas: seq<real>)
  {
    && |result| == |quotas| && Sum(result) == total
    && (forall i :: 0 <= i < |result| ==> 0 <= result[i] <= AtLeastOne(quotas[i]))
    && (forall i, j :: 0 <= i < |result| && 0 <= j < |result| && quotas[i] > quotas[j] ==> result[i] >= result[j] - 1)
  }

  lemma {:induction false} RepairStep(xs: seq<int>, total: nat, quotas: seq<real>, i: nat, m: nat)
    requires Fair(xs, total, quotas) && total >= |quotas|
    requires i < |xs| && m < |xs| && xs[i] == 0 && forall j :: 0 <= j < |xs| ==> xs[j] <= xs[m]
    ensures xs[m] > 1 && Fair(xs[m := xs[m] - 1][i := 1], total, quotas)
  {
    LargestAboveOne(xs, i, m);
    RepairKeepsSum(xs, i, m);
    RepairKeepsBounds(xs, quotas, i, m);
  }

  lemma {:induction false} LargestAboveOne(xs: seq<int>, i: nat, m: nat)
    requires i < |xs| && m < |xs| && xs[i] == 0 && Sum(xs) >= |xs| && forall j :: 0 <= j < |xs| ==> xs[j] <= xs[m]
    ensures xs[m] > 1
  {
    if forall j :: 0 <= j < |xs| ==> xs[j] <= 1 {
      SumSmall(xs, i);
    }
  }

  lemma {:induction false} RepairKeepsSum(xs: seq<int>, i: nat, m: nat)
    requires i < |xs| && m < |xs| && i != m && xs[i] == 0
    ensures Sum(xs[m := xs[m] - 1][i := 1]) == Sum(xs)
  {
    SumUpdate(xs, m, xs[m] - 1);
    SumUpdate(xs[m := xs[m] - 1], i, 1);
  }

  lemma {:induction false} RepairKeepsBounds(xs: seq<int>, quotas: seq<real>, i: nat, m: nat)
    requires |xs| == |quotas| && i < |xs| && m < |xs| && xs[i] == 0 && xs[m] > 1 && forall j :: 0 <= j < |xs| ==>
               xs[j] <= xs[m]
    requires forall j :: 0 <= j < |xs| ==> 0 <= xs[j] <= AtLeastOne(quotas[j])
    requires forall j, k :: 0 <= j < |xs| && 0 <= k < |xs| && quotas[j] > quotas[k] ==> xs[j] >= xs[k] - 1
    ensures var ys := xs[m := xs[m] - 1][i := 1];
            && (forall j :: 0 <= j < |ys| ==> 0 <= ys[j] <= AtLeastOne(quotas[j]))
            && (forall j, k :: 0 <= j < |ys| && 0 <= k < |ys| && quotas[j] > quotas[k] ==> ys[j] >= ys[k] - 1)
  {
  }

  lemma {:induction false} SharesAreFair(result: seq<int>, total: nat, quotas: seq<real>)
    requires (forall i :: 0 <= i < |quotas| ==> quotas[i] >= 0.0) && IsLargestRemainder(result, total, quotas)
    ensures Fair(result, total, quotas)
  {
    forall i, j | 0 <= i < |result| && 0 <= j < |result| && quotas[i] > quotas[j] ensures result[i] >= result[j] - 1 {
      LargestRemainderIsMonotone(result, total, quotas, i, j);
    }
  }

  lemma {:induction false} QuotaNonNegative(total: nat, fractions: seq<real>, i: nat)
    requires i < |fractions| && fractions[i] >= 0.0
    ensures Quotas(total, fractions)[i] >= 0.0
  {
  }

  /** Strictly more memory is strictly more quota, so at most one layer behind. */
  lemma {:induction false} MoreMemoryAtMostOneBehind(result: seq<int>, total: nat, fractions: seq<real>, i: nat, j: nat)
    requires Fair(result, total, Quotas(total, fractions)) && total > 0
    requires i < |fractions| && j < |fractions| && fractions[i] > fractions[j]
    ensures result[i] >= result[j] - 1
  {
    QuotaOrder(total, fractions, i, j);
  }

  // ----- what the repair leaves of it -----

  /** Every zero share has become 1, taken from shares that stay at least 1. */
  ghost predicate Repaired(shares: seq<int>, result: seq<int>)
  {
    RepairedUpTo(shares, result, |shares|)
  }

  ghost predicate RepairedUpTo(shares: seq<int>, result: seq<int>, n: nat)
  {
    && |result| == |shares|
    && (forall k :: 0 <= k < |shares| && shares[k] > 0 ==> 1 <= result[k] <= shares[k])
    && (forall k :: 0 <= k < |shares| && shares[k] <= 0 ==> result[k] == if k < n then 1 else shares[k])
  }

  lemma {:induction false} SumAtMost(xs: seq<int>, ys: seq<int>)
    requires |xs| == |ys| && forall k :: 0 <= k < |xs| ==> xs[k] <= ys[k]
    ensures Sum(xs) <= Sum(ys) && (Sum(xs) == Sum(ys) ==> xs == ys)
  {
    if xs != [] {
      var n := |xs| - 1;
      SumAtMost(xs[..n], ys[..n]);
      assert xs == xs[..n] + [xs[n]] && ys == ys[..n] + [ys[n]];
    }
  }

  /** Without a zero share there is nothing to repair. */
  lemma {:induction false} RepairNotNeeded(shares: seq<int>, result: seq<int>)
    requires Repaired(shares, result) && Sum(shares) == Sum(result)
    ensures (forall k :: 0 <= k < |shares| ==> shares[k] > 0) ==> result == shares
  {
    if forall k :: 0 <= k < |shares| ==> shares[k] > 0 {
      SumAtMost(result, shares);
    }
  }

  /** Two allocations with the same sum that differ do so in both directions. */
  lemma {:induction false} DifferBothWays(xs: seq<int>, ys: seq<int>) returns (i: nat)
    requires |xs| == |ys| && Sum(xs) == Sum(ys) && xs != ys
    ensures i < |xs| && xs[i] > ys[i]
  {
    if forall k :: 0 <= k < |xs| ==> xs[k] <= ys[k] {
      SumAtMost(xs, ys);
    }
    i :| 0 <= i < |xs| && xs[i] > ys[i];
  }

  /** A place that only the first rounds up comes before one that only the second does. */
  lemma {:induction false} UpComesFirst(xs: seq<int>, ys: seq<int>, total: nat, quotas: seq<real>, i: nat, j: nat)
    requires IsLargestRemainder(xs, total, quotas) && IsLargestRemainder(ys, total, quotas)
    requires i < |quotas| && j < |quotas| && xs[i] > ys[i] && ys[j] > xs[j]
    ensures |Remainders(quotas)| == |quotas| && Before(i, j, Remainders(quotas))
  {
    assert xs[i] > quotas[i].Floor && xs[j] == quotas[j].Floor;
  }

  lemma {:induction false} NotBothWays(xs: seq<int>, ys: seq<int>, total: nat, quotas: seq<real>, i: nat, j: nat)
    requires IsLargestRemainder(xs, total, quotas) && IsLargestRemainder(ys, total, quotas)
    requires i < |quotas| && j < |quotas|
    ensures !(xs[i] > ys[i] && ys[j] > xs[j])
  {
    if xs[i] > ys[i] && ys[j] > xs[j] {
      UpComesFirst(xs, ys, total, quotas, i, j);
      UpComesFirst(ys, xs, total, quotas, j, i);
    }
  }

  /** Quotas and total determine the largest-remainder shares. */
  lemma {:induction false} LargestRemainderIsUnique(xs: seq<int>, ys: seq<int>, total: nat, quotas: seq<real>)
    requires IsLargestRemainder(xs, total, quotas) && IsLargestRemainder(ys, total, quotas)
    ensures xs == ys
  {
    if xs != ys {
      var i := DifferBothWays(xs, ys);
      var j := DifferBothWays(ys, xs);
      NotBothWays(xs, ys, total, quotas, i, j);
    }
  }

  /** What was taken came from the largest: a share that gave something up is at most
      one below any other in the end. */
  ghost predicate Levelled(shares: seq<int>, result: seq<int>)
  {
    && |result| == |shares|
    && forall j, k :: 0 <= j < |shares| && 0 <= k < |shares| && result[j] < shares[j] ==> result[k] <= result[j] + 1
  }

  /** The first of the largest. */
  ghost predicate IsFirstMax(xs: seq<int>, m: nat)
  {
    m < |xs| && forall j :: 0 <= j < |xs| ==> xs[j] <= xs[m] && (xs[j] == xs[m] ==> m <= j)
  }

  ghost function FirstMax(xs: seq<int>): (m: nat)
    requires xs != []
    ensures IsFirstMax(xs, m)
  {
    if |xs| == 1 then 0
    else
      var m := FirstMax(xs[..|xs| - 1]);
      if xs[|xs| - 1] > xs[m] then |xs| - 1 else m
  }

  /** The repair from position `i` on, with each layer taken from the first of the largest. */
  ghost function RepairFrom(xs: seq<int>, i: nat): seq<int>
    decreases |xs| - i
  {
    if i >= |xs| then xs
    else if xs[i] != 0 then RepairFrom(xs, i + 1)
    else
      var m := FirstMax(xs);
      RepairFrom(xs[m := xs[m] - 1][i := 1], i + 1)
  }

  /** The largest-remainder shares, repaired. */
  ghost predicate IsAllocation(result: seq<int>, total: nat, fractions: seq<real>)
  {
    exists shares :: IsLargestRemainder(shares, total, Quotas(total, fractions)) && result == RepairFrom(shares, 0)
  }

  lemma {:induction false} RepairFromStep(xs: seq<int>, i: nat, m: nat)
    requires i < |xs| && xs[i] == 0 && IsFirstMax(xs, m)
    ensures RepairFrom(xs, i) == RepairFrom(xs[m := xs[m] - 1][i := 1], i + 1)
  {
    var n := FirstMax(xs);
    assert IsFirstMax(xs, n) && m == n;
  }

  lemma {:induction false} RepairIsFair(xs: seq<int>, i: nat, total: nat, quotas: seq<real>)
    requires Fair(xs, total, quotas) && total >= |quotas|
    ensures Fair(RepairFrom(xs, i), total, quotas)
    decreases |xs| - i
  {
    if i < |xs| && xs[i] != 0 {
      RepairIsFair(xs, i + 1, total, quotas);
    } else if i < |xs| {
      var m := FirstMax(xs);
      RepairStep(xs, total, quotas, i, m);
      RepairIsFair(xs[m := xs[m] - 1][i := 1], i + 1, total, quotas);
    }
  }

  lemma {:induction false} AllocationIsFair(xs: seq<int>, total: nat, fractions: seq<real>)
    requires IsDistribution(fractions) && total >= |fractions| && IsAllocation(xs, total, fractions)
    ensures Fair(xs, total, Quotas(total, fractions))
  {
    var quotas := Quotas(total, fractions);
    var shares :| IsLargestRemainder(shares, total, quotas) && xs == RepairFrom(shares, 0);
    forall i | 0 <= i < |fractions| ensures quotas[i] >= 0.0 {
      QuotaNonNegative(total, fractions, i);
    }
    SharesAreFair(shares, total, quotas);
    RepairIsFair(shares, 0, total, quotas);
  }

  /** Total and fractions determine the allocation. */
  lemma {:induction false} AllocationIsUnique(a: seq<int>, b: seq<int>, total: nat, fractions: seq<real>)
    requires IsAllocation(a, total, fractions) && IsAllocation(b, total, fractions)
    ensures a == b
  {
    var quotas := Quotas(total, fractions);
    var s :| IsLargestRemainder(s, total, quotas) && a == RepairFrom(s, 0);
    var t :| IsLargestRemainder(t, total, quotas) && b == RepairFrom(t, 0);
    LargestRemainderIsUnique(s, t, total, quotas);
  }

  lemma {:induction false} LevelledStep(shares: seq<int>, xs: seq<int>, i: nat, m: nat)
    requires RepairedUpTo(shares, xs, i) && Levelled(shares, xs)
    requires i < |xs| && IsFirstMax(xs, m) && xs[i] == 0 && xs[m] > 1
    ensures Levelled(shares, xs[m := xs[m] - 1][i := 1])
  {
    var ys := xs[m := xs[m] - 1][i := 1];
    forall j, k | 0 <= j < |shares| && 0 <= k < |shares| && ys[j] < shares[j] ensures ys[k] <= ys[j] + 1 {
      assert j != m ==> xs[j] < shares[j];
      assert shares[i] <= 0;
    }
  }

  /** How far the repair has got. */
  ghost predicate RepairedSoFar(shares: seq<int>, xs: seq<int>, i: nat)
  {
    RepairedUpTo(shares, xs, i) && Levelled(shares, xs) && RepairFrom(xs, i) == RepairFrom(shares, 0)
  }

  lemma {:induction false} SkipSoFar(shares: seq<int>, xs: seq<int>, i: nat)
    requires RepairedSoFar(shares, xs, i) && i < |xs| && xs[i] != 0 && shares[i] >= 0
    ensures RepairedSoFar(shares, xs, i + 1)
  {
  }

  lemma {:induction false} TakeSoFar(shares: seq<int>, xs: seq<int>, i: nat, m: nat)
    requires RepairedSoFar(shares, xs, i) && i < |xs| && xs[i] == 0 && IsFirstMax(xs, m) && xs[m] > 1
    ensures RepairedSoFar(shares, xs[m := xs[m] - 1][i := 1], i + 1)
  {
    LevelledStep(shares, xs, i, m);
    RepairFromStep(xs, i, m);
  }

  /** "Minimum 1 per node by taking from the largest." */
  method Repair(shares: seq<int>, total: nat, ghost quotas: seq<real>) returns (result: seq<int>)
    requires Fair(shares, total, quotas) && total >= |quotas|
    ensures Fair(result, total, quotas) && Repaired(shares, result) && Levelled(shares, result)
    ensures result == RepairFrom(shares, 0)
  {
    result := shares;
    for i := 0 to |shares|
      invariant Fair(result, total, quotas) && |result| == |shares| && RepairedSoFar(shares, result, i)
    {
      if result[i] == 0 {
        var m := ArgMax(result);
        RepairStep(result, total, quotas, i, m);
        assert result[m] > 1;
        TakeSoFar(shares, result, i, m);
        result := result[m := result[m] - 1][i := 1];
      } else {
        SkipSoFar(shares, result, i);
      }
    }
  }

  /** The repaired shares of any largest-remainder allocation of these quotas. */
  ghost predicate IsRepairOf(result: seq<int>, total: nat, quotas: seq<real>)
  {
    forall shares :: IsLargestRemainder(shares, total, quotas) ==>
      && Repaired(shares, result) && Levelled(shares, result)
      && ((forall k :: 0 <= k < |shares| ==> shares[k] > 0) ==> result == shares)
  }

  lemma {:induction false} RepairOfTheOnlyOne(shares: seq<int>, result: seq<int>, total: nat, quotas: seq<real>)
    requires IsLargestRemainder(shares, total, quotas) && Sum(result) == total
    requires Repaired(shares, result) && Levelled(shares, result)
    ensures IsRepairOf(result, total, quotas)
  {
    forall other | IsLargestRemainder(other, total, quotas) ensures other == shares {
      LargestRemainderIsUnique(other, shares, total, quotas);
    }
    RepairNotNeeded(shares, result);
  }

  /** `allocate_layers_proportionally`. */
  method AllocateLayers(total: nat, fractions: seq<real>) returns (r: Result<seq<int>>)
    requires fractions == [] || IsDistribution(fractions)
    ensures r.Ok? <==> fractions != [] && total >= |fractions|
    ensures r.Ok? ==> Fair(r.value, total, Quotas(total, fractions))
    ensures r.Ok? ==> IsRepairOf(r.value, total, Quotas(total, fractions))
    ensures r.Ok? ==> IsAllocation(r.value, total, fractions)
    ensures r.Ok? ==> forall i :: 0 <= i < |r.value| ==> r.value[i] >= 1
  {
    var n := |fractions|;
    if n == 0 || total < n {
      return ValueError;
    }
    var shares := LargestRemainder(total, fractions);
    ghost var quotas := Quotas(total, fractions);
    forall i | 0 <= i < n ensures quotas[i] >= 0.0 {
      QuotaNonNegative(total, fractions, i);
    }
    SharesAreFair(shares, total, quotas);
    var result := Repair(shares, total, quotas);
    RepairOfTheOnlyOne(shares, result, total, quotas);
    return Ok(result);
  }
}
