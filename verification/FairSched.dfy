/**
 * Accounting of the fair-scheduling run queues.
 *
 * A processor has two fair run queues, active and expired. A run queue keeps
 * its threads in one group per priority, a list of the non-empty groups by
 * non-increasing weight, and running totals of weight and work for itself and
 * for each group. Threads that used up their share of a round move to the
 * expired queue, and the queues swap when the active one runs out of threads.
 */
module FairSched {
  import opened Common

  const NR_GROUPS: nat := 40
  const WORD32: nat := 0x1_0000_0000
  const WORD64: nat := 0x1_0000_0000_0000_0000

  /** Weight and work of a thread are kept in 16 bits, those of groups and queues in 32. */
  const WORD16: nat := 0x1_0000
  type Short = n: nat | n < WORD16
  type Word = n: nat | n < WORD32

  /** Scheduling data of a queued thread, as a value. */
  datatype FsData = FsData(priority: nat, weight: Short, work: Short)

  datatype Measure = Weight | Work

  /** The group number that stands for "all groups". */
  const ALL: int := -1

  function Part(d: FsData, m: Measure, g: int): nat {
    if g != ALL && d.priority != g then 0
    else match m
      case Weight => d.weight
      case Work => d.work
  }

  /** The sum of a measure over the threads of a group. */
  function Total(s: seq<FsData>, m: Measure, g: int): nat {
    if s == [] then 0 else Total(s[..|s| - 1], m, g) + Part(s[|s| - 1], m, g)
  }

  lemma {:induction false} TotalConcat(a: seq<FsData>, b: seq<FsData>, m: Measure, g: int)
    ensures Total(a + b, m, g) == Total(a, m, g) + Total(b, m, g)
  {
    if b == [] {
      assert a + b == a;
    } else {
      TotalConcat(a, b[..|b| - 1], m, g);
      assert (a + b)[..|a + b| - 1] == a + b[..|b| - 1];
    }
  }

  lemma TotalAt(s: seq<FsData>, i: nat, m: Measure, g: int)
    requires i < |s|
    ensures Total(s, m, g) == Total(s[..i], m, g) + Part(s[i], m, g) + Total(s[i + 1..], m, g)
  {
    assert s == s[..i] + ([s[i]] + s[i + 1..]);
    TotalConcat(s[..i], [s[i]] + s[i + 1..], m, g);
    TotalConcat([s[i]], s[i + 1..], m, g);
    assert [s[i]][..0] == [];
    assert Total([s[i]], m, g) == Total([], m, g) + Part(s[i], m, g);
  }

  lemma TotalSet(s: seq<FsData>, i: nat, d: FsData, m: Measure, g: int)
    requires i < |s|
    ensures Total(s[i := d], m, g) == Total(s, m, g) - Part(s[i], m, g) + Part(d, m, g)
  {
    TotalAt(s, i, m, g);
    TotalAt(s[i := d], i, m, g);
    assert s[i := d][..i] == s[..i];
    assert s[i := d][i + 1..] == s[i + 1..];
  }

  lemma TotalDrop(s: seq<FsData>, i: nat, m: Measure, g: int)
    requires i < |s|
    ensures Total(s[..i] + s[i + 1..], m, g) == Total(s, m, g) - Part(s[i], m, g)
  {
    TotalAt(s, i, m, g);
    TotalConcat(s[..i], s[i + 1..], m, g);
  }

  lemma TotalPush(s: seq<FsData>, d: FsData, m: Measure, g: int)
    ensures Total(s + [d], m, g) == Total(s, m, g) + Part(d, m, g)
  {
    assert (s + [d])[..|s|] == s;
  }

  /** Every thread did at most k times its weight. */
  ghost predicate Paced(s: seq<FsData>, k: nat) {
    forall i :: 0 <= i < |s| ==> s[i].work <= k * s[i].weight
  }

  lemma {:induction false} TotalPaced(s: seq<FsData>, g: int, k: nat)
    requires Paced(s, k)
    ensures Total(s, Work, g) <= k * Total(s, Weight, g)
  {
    if s == [] {
    } else {
      hide Part;
      var n := |s| - 1;
      assert forall i :: 0 <= i < n ==> s[..n][i] == s[i];
      TotalPaced(s[..n], g, k);
      PartPaced(s[n], g, k);
      Distribute(k, Total(s[..n], Weight, g), Part(s[n], Weight, g));
    }
  }

  lemma PartPaced(d: FsData, g: int, k: nat)
    requires d.work <= k * d.weight
    ensures Part(d, Work, g) <= k * Part(d, Weight, g)
  {}

  lemma Distribute(k: nat, a: nat, b: nat)
    ensures k * (a + b) == k * a + k * b
  {}

  lemma {:induction false} TotalGroup(s: seq<FsData>, m: Measure, g: int)
    ensures Total(s, m, g) <= Total(s, m, ALL)
  {
    if s != [] {
      TotalGroup(s[..|s| - 1], m, g);
    }
  }

  /** A group weighs nothing exactly when it has no thread. */
  lemma {:induction false} TotalPositive(s: seq<FsData>, g: int)
    requires forall i :: 0 <= i < |s| ==> s[i].weight > 0
    ensures Total(s, Weight, g) > 0 <==> exists i :: 0 <= i < |s| && (g == ALL || s[i].priority == g)
  {
    if s != [] {
      var n := |s| - 1;
      TotalPositive(s[..n], g);
      assert Part(s[n], Weight, g) > 0 <==> (g == ALL || s[n].priority == g);
      if exists i :: 0 <= i < |s| && (g == ALL || s[i].priority == g) {
        var i :| 0 <= i < |s| && (g == ALL || s[i].priority == g);
        if i < n {
          assert s[..n][i] == s[i];
        }
      }
      if i :| 0 <= i < n && (g == ALL || s[..n][i].priority == g) {
        assert s[i].priority == s[..n][i].priority;
      }
    }
  }

  // ---- Scaling ----

  function Prio2Weight(priority: nat, sliceBase: nat): nat {
    (priority + 1) * sliceBase
  }

  /**
   * The scaling of a work to a new weight, with the machine's truncations:
   * on a 32-bit processor small operands use a 32-bit product, all others a
   * 64-bit one, and the quotient is returned in 32 bits.
   */
  function EnqueueScale(work: nat, oldWeight: nat, newWeight: nat, lp64: bool): Word
    requires oldWeight != 0
  {
    Truncated(work * newWeight, oldWeight, !lp64 && work < WORD16 && newWeight < WORD16)
  }

  function Truncated(product: nat, oldWeight: nat, narrow: bool): Word
    requires oldWeight != 0
  {
    (if narrow then product % WORD32 / oldWeight else product % WORD64 / oldWeight) % WORD32
  }

  /** A value kept in 32 bits. */
  function Wrap(n: int): Word {
    n % WORD32
  }

  /** A value kept in 16 bits. */
  function Cut(n: int): Short {
    n % WORD16
  }

  lemma WrapFits(n: int)
    ensures 0 <= n < WORD32 ==> Wrap(n) == n
    ensures 0 <= n ==> Wrap(n) <= n
  {}

  lemma CutFits(n: int)
    ensures 0 <= n < WORD16 ==> Cut(n) == n
    ensures Cut(n) == n ==> 0 <= n < WORD16
    ensures Cut(WORD16) == 0
  {}

  lemma WrapAdd(a: int, b: int)
    ensures Wrap(Wrap(a) + b) == Wrap(a + b)
  {}

  lemma WrapZero(a: Word, b: int)
    ensures Wrap(a - b) == 0 <==> a == Wrap(b)
  {}

  /** The scaling loses nothing but the high part of the quotient. */
  lemma ScaleWraps(work: nat, oldWeight: nat, newWeight: nat, lp64: bool)
    requires 0 < oldWeight && work < WORD32 && newWeight < WORD32
    ensures EnqueueScale(work, oldWeight, newWeight, lp64) == Wrap(work * newWeight / oldWeight)
  {
    hide EnqueueScale, Truncated, Wrap;
    var narrow := !lp64 && work < WORD16 && newWeight < WORD16;
    ProductFits(work, newWeight);
    ScaleIs(work, oldWeight, newWeight, lp64);
    TruncatedWraps(work * newWeight, oldWeight, narrow);
  }

  lemma ScaleIs(work: nat, oldWeight: nat, newWeight: nat, lp64: bool)
    requires 0 < oldWeight
    ensures EnqueueScale(work, oldWeight, newWeight, lp64)
            == Truncated(work * newWeight, oldWeight, !lp64 && work < WORD16 && newWeight < WORD16)
  {}

  lemma TruncatedWraps(product: nat, oldWeight: nat, narrow: bool)
    requires 0 < oldWeight && product < WORD64 && (narrow ==> product < WORD32)
    ensures Truncated(product, oldWeight, narrow) == Wrap(product / oldWeight)
  {
    assert product / oldWeight <= product;
  }

  lemma ProductFits(a: nat, b: nat)
    requires a < WORD32 && b < WORD32
    ensures a * b < WORD64
    ensures a < WORD16 && b < WORD16 ==> a * b < WORD32
  {
    ProductBelow(a, b, WORD32 - 1);
    if a < WORD16 && b < WORD16 {
      ProductBelow(a, b, WORD16 - 1);
    }
  }

  lemma ProductBelow(a: nat, b: nat, limit: nat)
    requires a <= limit && b <= limit
    ensures a * b <= limit * limit
  {
    assert a * b <= limit * b;
    assert limit * b <= limit * limit;
  }

  lemma QuotientBelow(a: nat, d: nat, b: nat)
    requires 0 < d && a <= d
    ensures a * b / d <= b
  {
    assert a * b <= d * b;
    QuotientAtMost(a * b, d, b);
  }

  lemma QuotientAtMost(n: nat, d: nat, q: nat)
    requires 0 < d
    ensures n / d <= q <==> n < d * (q + 1)
  {
    var k := n / d;
    assert n == d * k + n % d;
    if k <= q {
      assert d * k <= d * q;
    } else {
      assert d * k >= d * (q + 1);
    }
  }

  /**
   * Adding a thread to a group scales the group's work so that the group keeps
   * its advance: its work per weight is the old one, rounded down. The thread
   * is charged the difference, which never exceeds its weight when the
   * group's work does not exceed the group's weight.
   */
  lemma GroupShare(work: nat, weight: nat, w: nat)
    requires 0 < weight
    ensures var scaled := work * (weight + w) / weight;
      && scaled == work + work * w / weight
      && scaled * weight <= work * (weight + w) < (scaled + 1) * weight
      && (scaled - work <= w <==> work * w < weight * (w + 1))
      && (work <= weight ==> scaled - work <= w)
  {
    assert work * (weight + w) == weight * work + work * w by { Spread(work, weight, w); }
    DivShift(work * w, weight, work);
    DivBounds(work * (weight + w), weight);
    QuotientAtMost(work * w, weight, w);
    if work <= weight {
      QuotientBelow(work, weight, w);
    }
  }

  lemma Spread(a: nat, b: nat, c: nat)
    ensures a * (b + c) == b * a + a * c
  {}

  lemma DivShift(n: nat, d: nat, k: nat)
    requires 0 < d
    ensures (d * k + n) / d == k + n / d
  {
    Spread(d, k, n / d);
    assert d * (k + n / d) == d * k + d * (n / d);
    DivUnique(d * k + n, d, k + n / d, n % d);
  }

  lemma DivBounds(n: nat, d: nat)
    requires 0 < d
    ensures (n / d) * d <= n < (n / d + 1) * d
  {
    assert n == d * (n / d) + n % d;
    assert (n / d + 1) * d == d * (n / d) + d;
  }

  lemma DivUnique(n: nat, d: nat, q: nat, r: nat)
    requires 0 < d && r < d && n == d * q + r
    ensures n / d == q
  {
    QuotientAtMost(n, d, q);
    if q > 0 {
      QuotientAtMost(n, d, q - 1);
    }
  }

  // ---- The list of groups ----

  ghost predicate Sorted(groups: seq<nat>, weights: seq<nat>)
    requires forall i :: 0 <= i < |groups| ==> groups[i] < |weights|
  {
    forall i, j :: 0 <= i < j < |groups| ==> weights[groups[i]] >= weights[groups[j]]
  }

  /** The list holds exactly the groups that weigh something, heaviest first. */
  ghost predicate Listed(groups: seq<nat>, weights: seq<nat>) {
    && NoDup(groups)
    && (forall i :: 0 <= i < |groups| ==> groups[i] < |weights|)
    && (forall g: nat :: g < |weights| ==> (g in groups <==> weights[g] > 0))
    && Sorted(groups, weights)
  }

  function Position<T(==)>(s: seq<T>, x: T): (i: nat)
    requires x in s
    ensures i < |s| && s[i] == x
  {
    if s[0] == x then 0 else 1 + Position(s[1..], x)
  }

  function Without<T(==)>(s: seq<T>, x: T): seq<T> {
    if x in s then s[..Position(s, x)] + s[Position(s, x) + 1..] else s
  }

  lemma WithoutAt<T>(s: seq<T>, x: T)
    requires x in s
    ensures var r, p := Without(s, x), Position(s, x);
      && |r| == |s| - 1
      && (forall i :: 0 <= i < p ==> r[i] == s[i])
      && (forall i :: p <= i < |r| ==> r[i] == s[i + 1])
  {}

  lemma WithoutHead<T>(s: seq<T>)
    requires s != []
    ensures Without(s, s[0]) == s[1..]
  {}

  lemma WithoutNone<T>(s: seq<T>, x: T)
    requires x !in s
    ensures Without(s, x) == s
  {}

  lemma WithoutParts<T>(s: seq<T>, x: T)
    requires NoDup(s)
    ensures NoDup(Without(s, x))
    ensures forall y :: y in Without(s, x) <==> y in s && y != x
  {
    if x in s {
      var i := Position(s, x);
      var r := Without(s, x);
      forall k | 0 <= k < |s| && k != i ensures s[k] in r {
        assert s[k] == r[if k < i then k else k - 1];
      }
    }
  }

  function InsertAt<T>(s: seq<T>, k: nat, x: T): seq<T>
    requires k <= |s|
  {
    s[..k] + [x] + s[k..]
  }

  lemma InsertedAt<T>(s: seq<T>, k: nat, x: T)
    requires k <= |s|
    ensures var r := InsertAt(s, k, x);
      && |r| == |s| + 1 && r[k] == x
      && (forall i :: 0 <= i < k ==> r[i] == s[i])
      && (forall i :: k < i < |r| ==> r[i] == s[i - 1])
  {}

  /**
   * Position k of the other groups is where a group of this weight belongs:
   * after all groups at least as heavy (or, when it shrank, strictly
   * heavier), before all the others.
   */
  ghost predicate Place(others: seq<nat>, weights: seq<nat>, k: nat, weight: nat, shrunk: bool) {
    && k <= |others|
    && (forall i :: 0 <= i < |others| ==> others[i] < |weights|)
    && (forall i :: 0 <= i < k ==>
          weights[others[i]] >= weight && (shrunk ==> weights[others[i]] > weight))
    && (forall i :: k <= i < |others| ==>
          weights[others[i]] <= weight && (!shrunk ==> weights[others[i]] < weight))
  }

  /**
   * The list after a group was moved to where its new weight belongs, all
   * other groups keeping their order.
   */
  ghost predicate Placed(r: seq<nat>, groups: seq<nat>, weights: seq<nat>, g: nat, weight: nat, shrunk: bool) {
    exists k: nat ::
      && Place(Without(groups, g), weights, k, weight, shrunk)
      && r == InsertAt(Without(groups, g), k, g)
  }

  lemma PlacedListed(r: seq<nat>, groups: seq<nat>, weights: seq<nat>, g: nat, weight: nat, shrunk: bool)
    requires Listed(groups, weights) && g < |weights| && weight > 0
    requires Placed(r, groups, weights, g, weight, shrunk)
    ensures Listed(r, weights[g := weight])
  {
    var w := Without(groups, g);
    var k: nat :| Place(w, weights, k, weight, shrunk) && r == InsertAt(w, k, g);
    GoneListed(groups, weights, g);
    WithoutParts(groups, g);
    InsertListed(w, weights[g := 0], k, g, weight);
    assert weights[g := 0][g := weight] == weights[g := weight];
  }

  lemma InsertListed(w: seq<nat>, weights: seq<nat>, k: nat, g: nat, weight: nat)
    requires Listed(w, weights) && g < |weights| && weights[g] == 0 && weight > 0 && k <= |w|
    requires forall i :: 0 <= i < k ==> weights[w[i]] >= weight
    requires forall i :: k <= i < |w| ==> weights[w[i]] <= weight
    ensures Listed(InsertAt(w, k, g), weights[g := weight])
  {
    hide InsertAt;
    InsertedAt(w, k, g);
    var r, v := InsertAt(w, k, g), weights[g := weight];
    assert g !in w;
    forall i | 0 <= i < |r| ensures r[i] < |v| {
      if i != k {
        assert r[i] == w[if i < k then i else i - 1];
      }
    }
    forall i, j | 0 <= i < j < |r| ensures r[i] != r[j] && v[r[i]] >= v[r[j]] {
      InsertPair(w, weights, k, g, weight, i, j);
    }
    forall h: nat | h < |weights| ensures h in r <==> v[h] > 0 {
      if h != g {
        InsertMember(w, k, g, h);
      }
      assert r[k] == g;
    }
  }

  lemma InsertMember<T>(w: seq<T>, k: nat, g: T, h: T)
    requires k <= |w| && h != g
    ensures h in InsertAt(w, k, g) <==> h in w
  {}

  lemma InsertPair(w: seq<nat>, weights: seq<nat>, k: nat, g: nat, weight: nat, i: nat, j: nat)
    requires Listed(w, weights) && g < |weights| && weights[g] == 0 && weight > 0 && k <= |w|
    requires forall i :: 0 <= i < k ==> weights[w[i]] >= weight
    requires forall i :: k <= i < |w| ==> weights[w[i]] <= weight
    requires g !in w && i < j < |InsertAt(w, k, g)|
    ensures var r, v := InsertAt(w, k, g), weights[g := weight];
      r[i] < |v| && r[j] < |v| && r[i] != r[j] && v[r[i]] >= v[r[j]]
  {
    InsertedAt(w, k, g);
    var r := InsertAt(w, k, g);
    var i', j' := if i < k then i else i - 1, if j < k then j else j - 1;
    if i != k {
      assert r[i] == w[i'] && w[i'] < |weights| && w[i'] != g;
    }
    if j != k {
      assert r[j] == w[j'] && w[j'] < |weights| && w[j'] != g;
    }
    if i != k && j != k {
      assert i' < j' && w[i'] != w[j'] && weights[w[i']] >= weights[w[j']];
    }
  }

  lemma SortedWithout(groups: seq<nat>, weights: seq<nat>, g: nat)
    requires Listed(groups, weights)
    ensures var w := Without(groups, g);
      && (forall i :: 0 <= i < |w| ==> w[i] < |weights|)
      && Sorted(w, weights)
  {
    var w := Without(groups, g);
    if g in groups {
      var p := Position(groups, g);
      forall i | 0 <= i < |w| ensures w[i] == groups[if i < p then i else i + 1] {}
    }
  }

  lemma GoneListed(groups: seq<nat>, weights: seq<nat>, g: nat)
    requires Listed(groups, weights) && g < |weights|
    ensures Listed(Without(groups, g), weights[g := 0])
  {
    WithoutParts(groups, g);
    SortedWithout(groups, weights, g);
    var w := Without(groups, g);
    forall i | 0 <= i < |w| ensures w[i] != g {
      assert w[i] in w;
    }
  }

  /**
   * Moves a group whose weight grows towards the front of the list, or links
   * it from the back when it was empty.
   */
  method RaiseGroup(groups: seq<nat>, weights: seq<nat>, g: nat, groupWeight: nat) returns (r: seq<nat>)
    requires Listed(groups, weights) && g < |weights|
    requires weights[g] < groupWeight
    ensures Placed(r, groups, weights, g, groupWeight, false)
    ensures Listed(r, weights[g := groupWeight])
  {
    hide Place, InsertAt, Without, Sorted;
    var initNode := if weights[g] == 0 then |groups| else Position(groups, g);
    var node := initNode;
    while node > 0 && !(weights[groups[node - 1]] >= groupWeight)
      invariant 0 <= node <= initNode
      invariant forall i :: node <= i < initNode ==> weights[groups[i]] < groupWeight
    {
      node := node - 1;
    }
    if weights[g] == 0 {
      r := groups[..node] + [g] + groups[node..];
    } else if node != initNode {
      r := groups[..node] + [g] + groups[node..initNode] + groups[initNode + 1..];
    } else {
      r := groups;
    }
    RaisedPlace(groups, weights, g, groupWeight, initNode, node);
    Moved(r, groups, g, initNode, node);
    PlacedListed(r, groups, weights, g, groupWeight, false);
  }

  /** A list where g was taken from one place (or nowhere) and linked before it. */
  lemma Moved(r: seq<nat>, groups: seq<nat>, g: nat, from: nat, to: nat)
    requires to <= from <= |groups|
    requires g in groups ==> from == Position(groups, g)
    requires g !in groups ==> from == |groups|
    requires |r| == if g in groups then |groups| else |groups| + 1
    requires to < |r| && r[to] == g
    requires forall i :: 0 <= i < to ==> r[i] == groups[i]
    requires forall i :: to < i <= from && i < |r| ==> r[i] == groups[i - 1]
    requires forall i :: from < i < |r| ==> r[i] == groups[i]
    ensures to <= |Without(groups, g)| && r == InsertAt(Without(groups, g), to, g)
  {
    if g in groups {
      WithoutAt(groups, g);
    } else {
      WithoutNone(groups, g);
    }
    InsertedAt(Without(groups, g), to, g);
    var z := InsertAt(Without(groups, g), to, g);
    forall i | 0 <= i < |r| ensures r[i] == z[i] {
      if i < to {
        assert z[i] == Without(groups, g)[i] == groups[i];
      } else if i > to {
        assert z[i] == Without(groups, g)[i - 1];
        assert i <= from ==> Without(groups, g)[i - 1] == groups[i - 1];
        assert i > from ==> Without(groups, g)[i - 1] == groups[i];
      }
    }
  }

  lemma RaisedPlace(groups: seq<nat>, weights: seq<nat>, g: nat, weight: nat, initNode: nat, node: nat)
    requires Listed(groups, weights) && g < |weights| && weights[g] < weight
    requires initNode == if weights[g] == 0 then |groups| else Position(groups, g)
    requires node <= initNode
    requires forall i :: node <= i < initNode ==> weights[groups[i]] < weight
    requires node > 0 ==> weights[groups[node - 1]] >= weight
    ensures Place(Without(groups, g), weights, node, weight, false)
  {
    hide Without, Position;
    var w := Without(groups, g);
    if weights[g] == 0 {
      WithoutNone(groups, g);
    } else {
      WithoutAt(groups, g);
    }
    forall i | 0 <= i < |groups|
      ensures groups[i] < |weights|
      ensures i < node ==> weights[groups[i]] >= weight
      ensures i > initNode ==> weights[groups[i]] < weight
    {
      if i < node - 1 {
        assert weights[groups[i]] >= weights[groups[node - 1]];
      } else if i > initNode {
        assert weights[groups[initNode]] >= weights[groups[i]];
      }
    }
  }

  /**
   * Moves a group whose weight shrank towards the back of the list, or
   * unlinks it when it is empty.
   */
  method LowerGroup(groups: seq<nat>, weights: seq<nat>, g: nat, groupWeight: nat) returns (r: seq<nat>)
    requires Listed(groups, weights) && g < |weights|
    requires groupWeight < weights[g]
    ensures if groupWeight == 0 then r == Without(groups, g) else Placed(r, groups, weights, g, groupWeight, true)
    ensures Listed(r, weights[g := groupWeight])
  {
    hide Place, InsertAt, Without, Sorted;
    if groupWeight == 0 {
      GoneListed(groups, weights, g);
      return Without(groups, g);
    }
    var initNode := Position(groups, g) + 1;
    var node := initNode;
    while node < |groups| && !(weights[groups[node]] <= groupWeight)
      invariant initNode <= node <= |groups|
      invariant forall i :: initNode <= i < node ==> weights[groups[i]] > groupWeight
    {
      node := node + 1;
    }
    if node != initNode {
      r := groups[..initNode - 1] + groups[initNode..node] + [g] + groups[node..];
    } else {
      r := groups;
    }
    LoweredPlace(groups, weights, g, groupWeight, node);
    MovedBack(r, groups, g, node - 1);
    PlacedListed(r, groups, weights, g, groupWeight, true);
  }

  lemma MovedBack(r: seq<nat>, groups: seq<nat>, g: nat, to: nat)
    requires g in groups && Position(groups, g) <= to < |groups| == |r|
    requires r[to] == g
    requires forall i :: 0 <= i < |r| && (i < Position(groups, g) || i > to) ==> r[i] == groups[i]
    requires forall i :: Position(groups, g) <= i < to ==> r[i] == groups[i + 1]
    ensures to <= |Without(groups, g)| && r == InsertAt(Without(groups, g), to, g)
  {
    WithoutAt(groups, g);
    InsertedAt(Without(groups, g), to, g);
    var z := InsertAt(Without(groups, g), to, g);
    forall i | 0 <= i < |r| ensures r[i] == z[i] {
      if i < to {
        assert z[i] == Without(groups, g)[i];
        assert i < Position(groups, g) ==> Without(groups, g)[i] == groups[i];
        assert i >= Position(groups, g) ==> Without(groups, g)[i] == groups[i + 1];
      } else if i > to {
        assert z[i] == Without(groups, g)[i - 1] == groups[i];
      }
    }
  }

  lemma LoweredPlace(groups: seq<nat>, weights: seq<nat>, g: nat, weight: nat, node: nat)
    requires Listed(groups, weights) && g < |weights| && 0 < weight < weights[g]
    requires Position(groups, g) < node <= |groups|
    requires forall i :: Position(groups, g) < i < node ==> weights[groups[i]] > weight
    requires node < |groups| ==> weights[groups[node]] <= weight
    ensures Place(Without(groups, g), weights, node - 1, weight, true)
  {
    hide Without, Position;
    var w, p := Without(groups, g), Position(groups, g);
    WithoutAt(groups, g);
    forall i | 0 <= i < |w|
      ensures w[i] < |weights|
      ensures i < node - 1 ==> weights[w[i]] > weight
      ensures node - 1 <= i ==> weights[w[i]] <= weight
    {
      if i < p {
        assert weights[groups[i]] >= weights[groups[p]];
      } else if i >= node - 1 {
        assert weights[groups[node]] >= weights[groups[i + 1]];
      }
    }
  }

  // ---- Totals that agree with the threads ----

  /** The running totals of a run queue. */
  datatype Totals = Totals(nrThreads: nat, weight: nat, work: Word, groupWeight: seq<nat>, groupWork: seq<Word>)

  /** The count and the weights are those of the threads, for the queue and for every group. */
  ghost predicate Weighed(d: seq<FsData>, t: Totals) {
    && t.nrThreads == |d|
    && t.weight == Total(d, Weight, ALL)
    && |t.groupWeight| == |t.groupWork| == NR_GROUPS
    && (forall i :: 0 <= i < |d| ==> d[i].priority < NR_GROUPS && d[i].weight > 0)
    && (forall g: nat :: g < NR_GROUPS ==> t.groupWeight[g] == Total(d, Weight, g))
  }

  /** The works are the sums over the threads too, in 32 bits. */
  ghost predicate Consistent(d: seq<FsData>, t: Totals) {
    && Weighed(d, t)
    && t.work == Wrap(Total(d, Work, ALL))
    && (forall g: nat :: g < NR_GROUPS ==> t.groupWork[g] == Wrap(Total(d, Work, g)))
  }

  function WorkOf(t: Totals, g: int): Word
    requires g == ALL || 0 <= g < |t.groupWork|
  {
    if g == ALL then t.work else t.groupWork[g]
  }

  /** What the work of a queue or group counts beyond its threads, in 32 bits. */
  function Drift(d: seq<FsData>, t: Totals, g: int): Word
    requires g == ALL || 0 <= g < |t.groupWork|
  {
    Wrap(WorkOf(t, g) - Total(d, Work, g))
  }

  /** The totals are the sums exactly when nothing drifted. */
  lemma DriftFree(d: seq<FsData>, t: Totals)
    requires Weighed(d, t)
    ensures Consistent(d, t) <==> forall g :: ALL <= g < NR_GROUPS ==> Drift(d, t, g) == 0
  {
    hide Wrap;
    forall g | ALL <= g < NR_GROUPS
      ensures Drift(d, t, g) == 0 <==> WorkOf(t, g) == Wrap(Total(d, Work, g))
    {
      WrapZero(WorkOf(t, g), Total(d, Work, g));
    }
    if forall g :: ALL <= g < NR_GROUPS ==> Drift(d, t, g) == 0 {
      assert Drift(d, t, ALL) == 0;
      forall g: nat | g < NR_GROUPS ensures t.groupWork[g] == Wrap(Total(d, Work, g)) {
        assert Drift(d, t, g) == 0;
      }
    } else if Consistent(d, t) {
      forall g | ALL <= g < NR_GROUPS ensures Drift(d, t, g) == 0 {
        assert WorkOf(t, g) == Wrap(Total(d, Work, g));
      }
    }
  }

  lemma SameDrift(s: seq<FsData>, t: Totals, s': seq<FsData>, t': Totals)
    requires Weighed(s, t) && Weighed(s', t')
    requires forall g :: ALL <= g < NR_GROUPS ==> Drift(s', t', g) == Drift(s, t, g)
    ensures Consistent(s', t') <==> Consistent(s, t)
  {
    hide Drift, Consistent;
    DriftFree(s, t);
    DriftFree(s', t');
    if Consistent(s, t) {
      forall g | ALL <= g < NR_GROUPS ensures Drift(s', t', g) == 0 {
        assert Drift(s, t, g) == 0;
      }
    } else {
      var g :| ALL <= g < NR_GROUPS && Drift(s, t, g) != 0;
      assert Drift(s', t', g) != 0;
    }
  }

  /** The totals once a thread joined its group and brought this much work. */
  function Pushed(t: Totals, d: FsData, work: Word): Totals
    requires d.priority < |t.groupWeight| == |t.groupWork|
  {
    Totals(t.nrThreads + 1, t.weight + d.weight, Wrap(t.work + work),
           t.groupWeight[d.priority := t.groupWeight[d.priority] + d.weight],
           t.groupWork[d.priority := Wrap(t.groupWork[d.priority] + work)])
  }

  function Pulled(t: Totals, d: FsData): Totals
    requires d.priority < |t.groupWeight| == |t.groupWork|
    requires t.nrThreads > 0 && d.weight <= t.groupWeight[d.priority] && d.weight <= t.weight
  {
    Totals(t.nrThreads - 1, t.weight - d.weight, Wrap(t.work - d.work),
           t.groupWeight[d.priority := t.groupWeight[d.priority] - d.weight],
           t.groupWork[d.priority := Wrap(t.groupWork[d.priority] - d.work)])
  }

  /** The totals after a unit of work in a group. */
  function Ticked(t: Totals, p: nat): Totals
    requires p < |t.groupWork|
  {
    var groupWork: int := t.groupWork[p];
    t.(work := Wrap(t.work + 1), groupWork := t.groupWork[p := Wrap(groupWork + 1)])
  }

  function Worked(d: FsData): FsData {
    d.(work := Cut(d.work + 1))
  }

  /** Queueing a thread adds the work it brings beyond what it remembers. */
  lemma PushDrift(s: seq<FsData>, t: Totals, d: FsData, work: Word, g: int)
    requires d.priority < |t.groupWeight| == |t.groupWork|
    requires g == ALL || 0 <= g < |t.groupWork|
    ensures Drift(s + [d], Pushed(t, d, work), g)
            == Wrap(Drift(s, t, g) + if g == ALL || g == d.priority then work - d.work else 0)
  {
    hide Wrap;
    var total: int, was: int := Total(s, Work, g), WorkOf(t, g);
    var mine: int, brought: int := d.work, work;
    TotalPush(s, d, Work, g);
    if g == ALL || g == d.priority {
      WrapAdd(was + brought, -total - mine);
      WrapAdd(was - total, brought - mine);
    } else {
      WrapAdd(was - total, 0);
    }
  }

  /** Taking a thread out leaves the drift as it is. */
  lemma DropDrift(s: seq<FsData>, t: Totals, i: nat, g: int)
    requires i < |s| && s[i].priority < |t.groupWeight| == |t.groupWork|
    requires t.nrThreads > 0 && s[i].weight <= t.groupWeight[s[i].priority] && s[i].weight <= t.weight
    requires g == ALL || 0 <= g < |t.groupWork|
    ensures Drift(s[..i] + s[i + 1..], Pulled(t, s[i]), g) == Drift(s, t, g)
  {
    hide Wrap;
    var total: int, was: int, mine: int := Total(s, Work, g), WorkOf(t, g), s[i].work;
    TotalDrop(s, i, Work, g);
    if g == ALL || g == s[i].priority {
      WrapAdd(was - mine, mine - total);
    }
  }

  /** A tick adds 2^16 when the thread's work wraps, and nothing otherwise. */
  lemma TickDrift(s: seq<FsData>, t: Totals, i: nat, g: int)
    requires i < |s| && s[i].priority < |t.groupWork|
    requires g == ALL || 0 <= g < |t.groupWork|
    ensures Drift(s[i := Worked(s[i])], Ticked(t, s[i].priority), g)
            == Wrap(Drift(s, t, g) + if (g == ALL || g == s[i].priority) && s[i].work == WORD16 - 1 then WORD16 else 0)
  {
    hide Wrap, Cut;
    var total: int, was: int, mine: int := Total(s, Work, g), WorkOf(t, g), s[i].work;
    var next: int := Cut(mine + 1);
    CutFits(mine + 1);
    TotalSet(s, i, Worked(s[i]), Work, g);
    if g == ALL || g == s[i].priority {
      WrapAdd(was + 1, mine - next - total);
      WrapAdd(was - total, mine + 1 - next);
    } else {
      WrapAdd(was - total, 0);
    }
  }

  /** The sums are kept exactly when a thread brings the work it remembers. */
  lemma ConsistentPush(s: seq<FsData>, t: Totals, d: FsData, work: Word)
    requires Weighed(s, t) && d.priority < NR_GROUPS && d.weight > 0
    ensures Weighed(s + [d], Pushed(t, d, work))
    ensures Consistent(s, t) ==> (Consistent(s + [d], Pushed(t, d, work)) <==> work == d.work)
    ensures work == d.work ==> (Consistent(s + [d], Pushed(t, d, work)) <==> Consistent(s, t))
  {
    hide Wrap, Drift;
    WeighedPush(s, t, d, work);
    DriftFree(s, t);
    DriftFree(s + [d], Pushed(t, d, work));
    forall g | ALL <= g < NR_GROUPS
      ensures Drift(s + [d], Pushed(t, d, work), g)
              == Wrap(Drift(s, t, g) + if g == ALL || g == d.priority then work - d.work else 0)
      ensures work == d.work ==> Drift(s + [d], Pushed(t, d, work), g) == Drift(s, t, g)
    {
      PushDrift(s, t, d, work, g);
      WrapFits(Drift(s, t, g));
    }
    var mine: int := d.work;
    WrapZero(work, mine);
    WrapFits(mine);
    WrapFits(0);
    if work == d.work {
      SameDrift(s, t, s + [d], Pushed(t, d, work));
    } else if Consistent(s, t) {
      assert Drift(s, t, ALL) == 0;
      assert Drift(s + [d], Pushed(t, d, work), ALL) == Wrap(work - mine) != 0;
    }
  }

  lemma WeighedPush(s: seq<FsData>, t: Totals, d: FsData, work: Word)
    requires Weighed(s, t) && d.priority < NR_GROUPS && d.weight > 0
    ensures Weighed(s + [d], Pushed(t, d, work))
  {
    hide Wrap;
    TotalPush(s, d, Weight, ALL);
    forall g: nat | g < NR_GROUPS
      ensures Pushed(t, d, work).groupWeight[g] == Total(s + [d], Weight, g)
    {
      TotalPush(s, d, Weight, g);
    }
  }

  /** Taking a thread out keeps the sums, and never makes up for wrong ones. */
  lemma ConsistentDrop(s: seq<FsData>, t: Totals, i: nat)
    requires i < |s| && Weighed(s, t)
    ensures s[i].priority < NR_GROUPS && t.nrThreads > 0
    ensures s[i].weight <= t.groupWeight[s[i].priority] && s[i].weight <= t.weight
    ensures Weighed(s[..i] + s[i + 1..], Pulled(t, s[i]))
    ensures Consistent(s[..i] + s[i + 1..], Pulled(t, s[i])) <==> Consistent(s, t)
  {
    hide Wrap, Drift;
    WeighedDrop(s, t, i);
    forall g | ALL <= g < NR_GROUPS
      ensures Drift(s[..i] + s[i + 1..], Pulled(t, s[i]), g) == Drift(s, t, g)
    {
      DropDrift(s, t, i, g);
    }
    SameDrift(s, t, s[..i] + s[i + 1..], Pulled(t, s[i]));
  }

  lemma WeighedDrop(s: seq<FsData>, t: Totals, i: nat)
    requires i < |s| && Weighed(s, t)
    ensures s[i].priority < NR_GROUPS && t.nrThreads > 0
    ensures s[i].weight <= t.groupWeight[s[i].priority] && s[i].weight <= t.weight
    ensures Weighed(s[..i] + s[i + 1..], Pulled(t, s[i]))
  {
    hide Wrap;
    PartsBelow(s, t, i);
    TotalDrop(s, i, Weight, ALL);
    forall g: nat | g < NR_GROUPS
      ensures Pulled(t, s[i]).groupWeight[g] == Total(s[..i] + s[i + 1..], Weight, g)
    {
      TotalDrop(s, i, Weight, g);
    }
  }

  /** A tick keeps the sums exactly when it does not wrap the thread's work. */
  lemma ConsistentTick(s: seq<FsData>, t: Totals, i: nat)
    requires i < |s| && Weighed(s, t)
    ensures s[i].priority < NR_GROUPS
    ensures Weighed(s[i := Worked(s[i])], Ticked(t, s[i].priority))
    ensures Consistent(s, t) ==>
              (Consistent(s[i := Worked(s[i])], Ticked(t, s[i].priority)) <==> s[i].work < WORD16 - 1)
  {
    hide Wrap, Drift, Cut;
    var s', t' := s[i := Worked(s[i])], Ticked(t, s[i].priority);
    WeighedTick(s, t, i);
    DriftFree(s, t);
    DriftFree(s', t');
    WrapFits(0);
    WrapFits(WORD16);
    forall g | ALL <= g < NR_GROUPS
      ensures Drift(s', t', g)
              == Wrap(Drift(s, t, g) + if (g == ALL || g == s[i].priority) && s[i].work == WORD16 - 1 then WORD16 else 0)
    {
      TickDrift(s, t, i, g);
    }
    if Consistent(s, t) && s[i].work == WORD16 - 1 {
      assert Drift(s, t, ALL) == 0;
      assert Drift(s', t', ALL) == WORD16;
    }
  }

  lemma WeighedTick(s: seq<FsData>, t: Totals, i: nat)
    requires i < |s| && Weighed(s, t)
    ensures s[i].priority < NR_GROUPS
    ensures Weighed(s[i := Worked(s[i])], Ticked(t, s[i].priority))
  {
    hide Wrap, Cut;
    TotalSet(s, i, Worked(s[i]), Weight, ALL);
    forall g: nat | g < NR_GROUPS
      ensures Total(s[i := Worked(s[i])], Weight, g) == Total(s, Weight, g)
    {
      TotalSet(s, i, Worked(s[i]), Weight, g);
    }
  }

  /** Taking a thread out undoes queueing it exactly when it brought the work it remembers. */
  lemma PulledPushed(t: Totals, d: FsData, work: Word)
    requires d.priority < |t.groupWeight| == |t.groupWork|
    ensures Pulled(Pushed(t, d, work), d) == t <==> work == d.work
  {
    hide Wrap;
    var r, p := Pulled(Pushed(t, d, work), d), d.priority;
    Returned(t.work, work, d.work);
    Returned(t.groupWork[p], work, d.work);
    assert r.groupWeight == t.groupWeight;
    if work == d.work {
      assert r.groupWork == t.groupWork;
    }
  }

  lemma Returned(was: Word, brought: Word, mine: Word)
    ensures Wrap(Wrap(was + brought) - mine) == was <==> brought == mine
  {}

  /** A thread's weight is part of the weights of its group and its queue. */
  lemma PartsBelow(s: seq<FsData>, t: Totals, i: nat)
    requires i < |s| && Weighed(s, t)
    ensures var p := s[i].priority;
      p < NR_GROUPS && t.nrThreads > 0 && 0 < s[i].weight <= t.groupWeight[p] <= t.weight
  {
    var p := s[i].priority;
    TotalAt(s, i, Weight, p);
    TotalGroup(s, Weight, p);
  }

  /** Sums below 2^32 are exact. */
  lemma ExactSums(s: seq<FsData>, t: Totals)
    requires Consistent(s, t) && Total(s, Work, ALL) < WORD32
    ensures t.work == Total(s, Work, ALL)
    ensures forall g: nat :: g < NR_GROUPS ==> t.groupWork[g] == Total(s, Work, g)
  {
    hide Wrap;
    WrapFits(Total(s, Work, ALL));
    forall g: nat | g < NR_GROUPS ensures t.groupWork[g] == Total(s, Work, g) {
      TotalGroup(s, Work, g);
      WrapFits(Total(s, Work, g));
    }
  }

  /** When every thread is within its weight, so are the queue and its groups. */
  lemma WithinWeight(s: seq<FsData>, t: Totals)
    requires Consistent(s, t) && t.weight < WORD32 && Paced(s, 1)
    ensures t.work == Total(s, Work, ALL) <= t.weight
    ensures forall g: nat :: g < NR_GROUPS ==> t.groupWork[g] == Total(s, Work, g) <= t.groupWeight[g] <= t.weight
  {
    TotalPaced(s, ALL, 1);
    ExactSums(s, t);
    forall g: nat | g < NR_GROUPS ensures Total(s, Work, g) <= t.groupWeight[g] <= t.weight {
      TotalPaced(s, g, 1);
      TotalGroup(s, Weight, g);
    }
  }

  // ---- The charge of a thread that enters a round ----

  /**
   * What a thread that enters a round owes: nothing in an empty queue,
   * otherwise its share of the work done by its group, or by the whole queue
   * when its group is empty.
   */
  function Share(t: Totals, p: nat, weight: nat): nat
    requires p < |t.groupWeight| == |t.groupWork|
  {
    if t.weight == 0 then 0
    else if t.groupWeight[p] == 0 then Ratio(t.work, t.weight, weight)
    else Ratio(t.groupWork[p], t.groupWeight[p], weight)
  }

  function Ratio(work: nat, weight: nat, newWeight: nat): nat
    requires weight != 0
  {
    work * newWeight / weight
  }

  /** The work of a thread's group once it joined. */
  function Scaled(t: Totals, p: nat, weight: nat, lp64: bool): Word
    requires p < |t.groupWeight| == |t.groupWork| && t.weight != 0
  {
    if t.groupWeight[p] == 0 then EnqueueScale(t.work, t.weight, weight, lp64)
    else EnqueueScale(t.groupWork[p], t.groupWeight[p], t.groupWeight[p] + weight, lp64)
  }

  /** What the code adds to the queue and the group for such a thread. */
  function Charged(t: Totals, p: nat, weight: nat, lp64: bool): Word
    requires p < |t.groupWeight| == |t.groupWork|
  {
    if t.weight == 0 then 0 else Wrap(Scaled(t, p, weight, lp64) - t.groupWork[p])
  }

  /** The queue, or the group a thread joins, is not too far ahead of its weight. */
  predicate Fair(t: Totals, p: nat, weight: nat)
    requires p < |t.groupWeight| == |t.groupWork|
  {
    if t.weight == 0 then true
    else if t.groupWeight[p] == 0 then t.work * weight < t.weight * (weight + 1)
    else t.groupWork[p] * weight < t.groupWeight[p] * (weight + 1)
  }

  /** The exact condition for a newcomer to be charged no more than its weight. */
  lemma ShareWithin(t: Totals, p: nat, weight: nat)
    requires p < |t.groupWeight| == |t.groupWork|
    ensures Share(t, p, weight) <= weight <==> Fair(t, p, weight)
  {
    if t.weight != 0 && t.groupWeight[p] == 0 {
      QuotientAtMost(t.work * weight, t.weight, weight);
    } else if t.groupWeight[p] != 0 {
      QuotientAtMost(t.groupWork[p] * weight, t.groupWeight[p], weight);
    }
  }

  /** A newcomer owes no more per weight than the threads of the queue did. */
  lemma ShareBelow(s: seq<FsData>, t: Totals, p: nat, weight: nat, k: nat)
    requires Consistent(s, t) && p < NR_GROUPS && Paced(s, k)
    ensures Share(t, p, weight) <= k * weight
  {
    hide Wrap, Paced;
    if t.weight == 0 {
      assert k * weight >= 0;
    } else if t.groupWeight[p] == 0 {
      TotalPaced(s, ALL, k);
      WrapFits(Total(s, Work, ALL));
      RatioBelow(t.work, t.weight, weight, k);
    } else {
      TotalPaced(s, p, k);
      WrapFits(Total(s, Work, p));
      RatioBelow(t.groupWork[p], t.groupWeight[p], weight, k);
    }
  }

  lemma RatioBelow(a: nat, d: nat, b: nat, k: nat)
    requires 0 < d && a <= k * d
    ensures a * b / d <= k * b
  {
    assert a * b <= k * d * b;
    assert k * d * b == d * (k * b);
    QuotientAtMost(a * b, d, k * b);
  }

  /** It owes no more than its weight when every thread of the queue is within its own. */
  lemma ShareFits(s: seq<FsData>, t: Totals, p: nat, weight: nat)
    requires Consistent(s, t) && p < NR_GROUPS && Paced(s, 1)
    ensures Share(t, p, weight) <= weight && Fair(t, p, weight)
  {
    ShareBelow(s, t, p, weight, 1);
    ShareWithin(t, p, weight);
  }

  /** It owes more when the only thread of the queue is a tick over its weight. */
  lemma Overcharged(s: seq<FsData>, t: Totals, p: nat, weight: nat)
    requires Consistent(s, t) && p < NR_GROUPS && 0 < weight < WORD16 - 1
    requires s == [FsData(p, weight, weight + 1)]
    ensures Share(t, p, weight) == weight + 1 && !Fair(t, p, weight)
  {
    hide Wrap, Share, Fair;
    OneTotal(s[0], Weight, p);
    OneTotal(s[0], Weight, ALL);
    OneTotal(s[0], Work, p);
    WrapFits(weight + 1);
    ShareOver(t, p, weight);
    ShareWithin(t, p, weight);
  }

  lemma OneTotal(d: FsData, m: Measure, g: int)
    ensures Total([d], m, g) == Part(d, m, g)
  {
    assert [d][..0] == [];
  }

  lemma ShareOver(t: Totals, p: nat, weight: nat)
    requires p < |t.groupWeight| == |t.groupWork| && t.weight != 0
    requires t.groupWeight[p] == weight > 0 && t.groupWork[p] == weight + 1
    ensures Share(t, p, weight) == weight + 1
  {
    assert (weight + 1) * weight == weight * (weight + 1) + 0;
    DivUnique((weight + 1) * weight, weight, weight + 1, 0);
  }

  /** The charge is the share, and nothing of it is lost in 32 bits. */
  lemma ChargedShare(s: seq<FsData>, t: Totals, p: nat, weight: Short, lp64: bool)
    requires Consistent(s, t) && p < NR_GROUPS && t.weight + weight < WORD32
    ensures Charged(t, p, weight, lp64) == Share(t, p, weight)
  {
    hide Wrap, EnqueueScale, Paced, Share;
    LeastPace(s);
    ShareBelow(s, t, p, weight, WORD16 - 1);
    WrapFits(Share(t, p, weight));
    if t.weight != 0 {
      ScaledShare(s, t, p, weight, lp64);
    } else {
      ShareOfNone(t, p, weight);
    }
  }

  /** Every work fits in 16 bits, and no weight is zero. */
  lemma LeastPace(s: seq<FsData>)
    requires forall i :: 0 <= i < |s| ==> s[i].weight > 0
    ensures Paced(s, WORD16 - 1)
  {}

  lemma ScaledShare(s: seq<FsData>, t: Totals, p: nat, weight: Short, lp64: bool)
    requires Consistent(s, t) && p < NR_GROUPS && t.weight + weight < WORD32 && t.weight != 0
    ensures Wrap(Scaled(t, p, weight, lp64) - t.groupWork[p]) == Wrap(Share(t, p, weight))
  {
    hide Wrap, EnqueueScale;
    var share: int, was: int := Share(t, p, weight), t.groupWork[p];
    TotalGroup(s, Weight, p);
    if t.groupWeight[p] == 0 {
      EmptyGroup(s, t, p);
      ScaleWraps(t.work, t.weight, weight, lp64);
      WrapAdd(share, 0);
    } else {
      ScaleWraps(was, t.groupWeight[p], t.groupWeight[p] + weight, lp64);
      GroupShare(was, t.groupWeight[p], weight);
      WrapAdd(was + share, -was);
    }
  }

  lemma ShareOfNone(t: Totals, p: nat, weight: nat)
    requires p < |t.groupWeight| == |t.groupWork|
    ensures t.weight == 0 ==> Share(t, p, weight) == 0
  {}

  lemma EmptyGroup(s: seq<FsData>, t: Totals, p: nat)
    requires Consistent(s, t) && p < NR_GROUPS && t.groupWeight[p] == 0
    ensures t.groupWork[p] == 0
  {
    NoGroupWork(s, p);
    WrapFits(0);
  }

  lemma {:induction false} NoGroupWork(s: seq<FsData>, g: int)
    requires forall i :: 0 <= i < |s| ==> s[i].weight > 0
    ensures Total(s, Weight, g) == 0 ==> Total(s, Work, g) == 0
  {
    if s != [] {
      NoGroupWork(s[..|s| - 1], g);
    }
  }

  // ---- The choice of the next group ----

  /** Whether the current group is ahead of the next one, as the machine computes it. */
  function RatioExceeded(work: Word, weight: nat, nextWork: Word, nextWeight: nat, lp64: bool): bool {
    if !lp64 && weight < WORD16 && nextWeight < WORD16 then
      Wrap(Wrap(work + 1) * nextWeight) > Wrap(Wrap(nextWork + 1) * weight)
    else
      (work + 1) * nextWeight % WORD64 > (nextWork + 1) * weight % WORD64
  }

  /** The current group did more per weight, counting the tick to come, than the next one. */
  predicate Ahead(work: nat, weight: nat, nextWork: nat, nextWeight: nat) {
    (work + 1) * nextWeight > (nextWork + 1) * weight
  }

  /** The machine's comparison is exact, on 32 bits as long as the works do not exceed 16 bits. */
  lemma RatioExact(work: Word, weight: nat, nextWork: Word, nextWeight: nat, lp64: bool)
    requires weight < WORD32 && nextWeight < WORD32
    requires !lp64 && weight < WORD16 && nextWeight < WORD16 ==> work < WORD16 && nextWork < WORD16
    ensures RatioExceeded(work, weight, nextWork, nextWeight, lp64) <==> Ahead(work, weight, nextWork, nextWeight)
  {
    hide Wrap;
    if !lp64 && weight < WORD16 && nextWeight < WORD16 {
      TickProduct(work, nextWeight, WORD16 - 1);
      TickProduct(nextWork, weight, WORD16 - 1);
      WrapFits(work + 1);
      WrapFits(nextWork + 1);
      WrapFits((work + 1) * nextWeight);
      WrapFits((nextWork + 1) * weight);
    } else {
      TickProduct(work, nextWeight, WORD32 - 1);
      TickProduct(nextWork, weight, WORD32 - 1);
    }
  }

  lemma TickProduct(work: nat, weight: nat, limit: nat)
    requires work <= limit && weight <= limit
    ensures 0 <= (work + 1) * weight <= (limit + 1) * limit
  {
    assert (work + 1) * weight <= (limit + 1) * weight;
    assert (limit + 1) * weight <= (limit + 1) * limit;
  }

  /** With more work, a product that wraps in 32 bits makes a group that is far ahead look behind. */
  lemma RatioWraps()
    ensures Ahead(0x1_FFFF, 1, 0, 0x8000) && !RatioExceeded(0x1_FFFF, 1, 0, 0x8000, false)
  {
    assert 0x2_0000 * 0x8000 == WORD32;
  }
  // ---- Threads and run queues ----

  class Thread {
    var priority: nat
    var weight: Short
    var work: Short
    var round: nat
    var fsRunq: FsRunq?

    constructor (p: nat, sliceBase: nat)
      requires p < NR_GROUPS && 10 <= sliceBase <= 100
      ensures fsRunq == null && Fit() && priority == p && work == 0 && round == 0
      ensures weight == Prio2Weight(p, sliceBase)
    {
      new;
      ResetPriority(p, sliceBase);
    }

    function Data(): FsData reads this {
      FsData(priority, weight, work)
    }

    /** A thread that may be queued. */
    ghost predicate Fit() reads `priority, `weight {
      priority < NR_GROUPS && weight > 0
    }

    method ResetPriority(p: nat, sliceBase: nat)
      requires p < NR_GROUPS && 10 <= sliceBase <= 100
      modifies this
      ensures Fit() && fsRunq == null && priority == p && round == 0 && work == 0
      ensures weight == Prio2Weight(p, sliceBase)
    {
      WeightFits(p, sliceBase);
      priority := p;
      fsRunq := null;
      round := 0;
      weight := Prio2Weight(p, sliceBase);
      work := 0;
    }

    method UpdatePriority(p: nat, sliceBase: nat)
      requires p < NR_GROUPS && 10 <= sliceBase <= 100
      requires Fit() && fsRunq == null
      modifies this
      ensures Fit() && fsRunq == null && priority == p && round == old(round)
      ensures weight == Prio2Weight(p, sliceBase)
      ensures work <= weight && (old(work) <= weight ==> work == old(work))
    {
      WeightFits(p, sliceBase);
      priority := p;
      weight := Prio2Weight(p, sliceBase);
      if work >= weight {
        work := weight;
      }
    }
  }

  const MAX_WEIGHT: nat := 4000

  lemma WeightFits(p: nat, sliceBase: nat)
    requires p < NR_GROUPS && 10 <= sliceBase <= 100
    ensures 0 < Prio2Weight(p, sliceBase) <= MAX_WEIGHT
  {
    assert (p + 1) * sliceBase <= NR_GROUPS * sliceBase;
    assert (p + 1) * sliceBase >= 1 * sliceBase;
  }

  ghost function AllData(threads: seq<Thread>): (d: seq<FsData>)
    reads threads
    ensures |d| == |threads|
    ensures forall i :: 0 <= i < |threads| ==> d[i] == threads[i].Data()
  {
    seq(|threads|, i requires 0 <= i < |threads| reads threads => threads[i].Data())
  }

  lemma AllDataPush(threads: seq<Thread>, t: Thread)
    ensures AllData(threads + [t]) == AllData(threads) + [t.Data()]
  {}

  lemma AllDataDrop(threads: seq<Thread>, i: nat)
    requires i < |threads|
    ensures AllData(threads[..i] + threads[i + 1..]) == AllData(threads)[..i] + AllData(threads)[i + 1..]
  {}

  /** The threads of a run queue are known to belong to it. */
  ghost predicate Owned(threads: seq<Thread>, q: FsRunq)
    reads threads`fsRunq, threads`priority, threads`weight
  {
    && NoDup(threads)
    && (forall t :: t in threads ==> t.fsRunq == q && t.Fit())
  }

  /** Every thread, except maybe one, is within its weight. */
  ghost predicate Within(threads: seq<Thread>, but: Thread?) reads threads {
    forall t :: t in threads && t != but ==> t.work <= t.weight
  }

  lemma WithinPush(threads: seq<Thread>, t: Thread, but: Thread?)
    requires Within(threads, but) && t != but
    ensures Within(threads + [t], but) <==> t.work <= t.weight
  {
    assert t in threads + [t];
  }

  lemma WithinData(threads: seq<Thread>)
    requires Within(threads, null)
    ensures Paced(AllData(threads), 1)
  {
    assert forall i :: 0 <= i < |threads| ==> threads[i] in threads;
  }

  /** No thread did more than 16 times its weight. */
  ghost predicate Calm(threads: seq<Thread>) reads threads {
    forall t :: t in threads ==> t.work <= 16 * t.weight
  }

  lemma CalmData(threads: seq<Thread>)
    requires Calm(threads)
    ensures Paced(AllData(threads), 16)
  {
    assert forall i :: 0 <= i < |threads| ==> threads[i] in threads;
  }

  /** The list of each group holds its threads, except the running one. */
  ghost predicate Lined(lists: seq<seq<Thread>>, threads: seq<Thread>, running: Thread?) reads threads`priority {
    && |lists| == NR_GROUPS
    && (forall g: nat :: g < NR_GROUPS ==> NoDup(lists[g]))
    && (forall g: nat, t: Thread :: g < NR_GROUPS && t in lists[g] ==>
          t in threads && t.priority == g && t != running)
    && (forall t :: t in threads && t != running ==> t.priority < NR_GROUPS && t in lists[t.priority])
  }

  lemma NoDupPush<T>(s: seq<T>, x: T)
    requires NoDup(s) && x !in s
    ensures NoDup([x] + s)
  {}

  lemma LinedPush(lists: seq<seq<Thread>>, threads: seq<Thread>, running: Thread?, t: Thread)
    requires Lined(lists, threads, running) && t !in threads && t.priority < NR_GROUPS && t != running
    ensures Lined(lists[t.priority := [t] + lists[t.priority]], threads + [t], running)
  {
    var p := t.priority;
    assert t !in lists[p];
    var updated := lists[p := [t] + lists[p]];
    NoDupPush(lists[p], t);
    assert forall g: nat :: g < NR_GROUPS ==> NoDup(updated[g]);
    forall g: nat, u: Thread | g < NR_GROUPS && u in updated[g]
      ensures u in threads + [t] && u.priority == g && u != running
    {
      if g != p || u != t {
        assert u in lists[g];
      }
    }
    forall u | u in threads + [t] && u != running
      ensures u.priority < NR_GROUPS && u in updated[u.priority]
    {
      if u != t {
        assert u in lists[u.priority];
      }
    }
    assert Lined(updated, threads + [t], running);
  }

  lemma LinedDrop(lists: seq<seq<Thread>>, threads: seq<Thread>, running: Thread?, t: Thread)
    requires Lined(lists, threads, running) && NoDup(threads) && t in threads && t != running
    ensures t.priority < NR_GROUPS
    ensures Lined(lists[t.priority := Without(lists[t.priority], t)], Without(threads, t), running)
  {
    WithoutParts(threads, t);
    WithoutParts(lists[t.priority], t);
    LinedRest(lists, threads, running, t, Without(threads, t), Without(lists[t.priority], t));
  }

  lemma LinedRest(lists: seq<seq<Thread>>, threads: seq<Thread>, running: Thread?, t: Thread,
                  rest: seq<Thread>, list: seq<Thread>)
    requires Lined(lists, threads, running) && t in threads && t != running && t.priority < NR_GROUPS
    requires forall u :: u in rest <==> u in threads && u != t
    requires NoDup(list) && forall u :: u in list <==> u in lists[t.priority] && u != t
    ensures Lined(lists[t.priority := list], rest, running)
  {}

  /** The thread that starts running leaves its group's list, and comes back at its end. */
  lemma LinedStart(lists: seq<seq<Thread>>, threads: seq<Thread>, t: Thread)
    requires Lined(lists, threads, null) && t in threads
    ensures t.priority < NR_GROUPS
    ensures Lined(lists[t.priority := Without(lists[t.priority], t)], threads, t)
  {
    WithoutParts(lists[t.priority], t);
  }

  lemma LinedStop(lists: seq<seq<Thread>>, threads: seq<Thread>, t: Thread)
    requires Lined(lists, threads, t) && t in threads && t.priority < NR_GROUPS
    ensures Lined(lists[t.priority := lists[t.priority] + [t]], threads, null)
  {
    var p := t.priority;
    forall u | u in threads
      ensures u.priority < NR_GROUPS && u in lists[p := lists[p] + [t]][u.priority]
    {
      if u.priority == p && u != t {
        assert u in lists[p];
      }
    }
  }

  lemma OwnedPush(threads: seq<Thread>, q: FsRunq, t: Thread)
    requires Owned(threads, q) && t !in threads && t.fsRunq == q && t.Fit()
    ensures Owned(threads + [t], q)
  {}

  class FsRunq {
    var groupThreads: seq<seq<Thread>>
    var groupWeight: seq<nat>
    var groupWork: seq<Word>
    var groups: seq<nat>
    var threads: seq<Thread>
    var current: nat
    /** The group that was next to the current one when that left the list. */
    var left: Option<nat>
    var nrThreads: nat
    var weight: nat
    var work: Word

    ghost function Sums(): Totals
      reads `nrThreads, `weight, `work, `groupWeight, `groupWork
    {
      Totals(nrThreads, weight, work, groupWeight, groupWork)
    }

    ghost predicate Valid(running: Thread?) reads this, threads {
      && Owned(threads, this)
      && Weighed(AllData(threads), Sums())
      && Listed(groups, groupWeight)
      && Lined(groupThreads, threads, running)
      && current < NR_GROUPS
    }

    /** The works are the sums over the threads. */
    ghost predicate Exact()
      reads `threads, `nrThreads, `weight, `work, `groupWeight, `groupWork, threads
    {
      Consistent(AllData(threads), Sums())
    }

    /** The group that the link of the current one leads to, also after it left the list. */
    function Next(): Option<nat> reads `groups, `current, `left {
      if current in groups then Follower(groups, current) else left
    }

    /** The link of the current group does not lead out of the list. */
    ghost predicate Linked() reads `groups, `current, `left {
      Next().None? || Next().value in groups
    }

    constructor ()
      ensures threads == [] && nrThreads == 0 && Valid(null) && Exact()
    {
      groupThreads := Repeat([], NR_GROUPS);
      groupWeight := Repeat(0, NR_GROUPS);
      groupWork := Repeat(0, NR_GROUPS);
      groups, threads, current, left := [], [], 0, None;
      nrThreads, weight, work := 0, 0, 0;
      WrapFits(0);
    }

    /** What a thread brings to the work of a round: its own work, or a charge when it comes from another round. */
    function Entered(t: Thread, r: nat, lp64: bool): Word
      requires |groupWeight| == |groupWork| == NR_GROUPS && t.priority < NR_GROUPS
      reads `nrThreads, `weight, `work, `groupWeight, `groupWork, t`priority, t`weight, t`work, t`round
    {
      if t.round == r then t.work
      else Charged(Totals(nrThreads, weight, work, groupWeight, groupWork), t.priority, t.weight, lp64)
    }

    method Enqueue(r: nat, t: Thread, lp64: bool, ghost running: Thread?)
      requires Valid(running) && t.fsRunq == null && t.Fit() && t != running
      requires t.work <= t.weight && weight + t.weight < WORD32
      modifies this, t
      ensures Valid(running)
      ensures threads == old(threads) + [t] && t.fsRunq == this && t.round == r
      ensures t.priority == old(t.priority) && t.weight == old(t.weight)
      ensures |old(groupWeight)| == |old(groupWork)| == NR_GROUPS
      ensures var entered := old(Entered(t, r, lp64));
        t.work == Cut(entered) && Sums() == Pushed(old(Sums()), t.Data(), entered)
      ensures weight == old(weight) + t.weight
      ensures old(Exact()) ==> (Exact() <==> old(Entered(t, r, lp64)) < WORD16)
      ensures old(Exact() && t.round != r) ==>
                && old(Entered(t, r, lp64)) == old(Share(Sums(), t.priority, t.weight))
                && (old(Entered(t, r, lp64)) < WORD16 ==> (t.work <= t.weight <==> old(Fair(Sums(), t.priority, t.weight))))
      ensures old(t.round == r) ==> t.work == old(t.work) && (Exact() <==> old(Exact()))
      ensures old(Exact() && Within(threads, null)) ==> Exact() && t.work <= t.weight
      ensures old(Exact() && Calm(threads)) && t.weight <= MAX_WEIGHT ==> Exact()
      ensures old(Within(threads, running)) ==> (Within(threads, running) <==> t.work <= t.weight)
      ensures groupThreads == old(groupThreads[t.priority := [t] + groupThreads[t.priority]])
      ensures Placed(groups, old(groups), old(groupWeight), t.priority, groupWeight[t.priority], false)
    {
      hide Weighed, Consistent, Listed, Lined, Placed, AllData, Share, Fair, Charged, Within, Calm, Owned, Wrap, Cut;
      var p := t.priority;
      EnqueueReady(t, running);
      ghost var sums, entered, exact := Sums(), Entered(t, r, lp64), Exact();
      CutFits(t.work);
      CutFits(entered);
      if exact && t.round != r {
        EnqueueCharge(t, running, lp64);
      }
      var newGroupWeight := groupWeight[p] + t.weight;
      var totalWeight := weight + t.weight;
      var placed := RaiseGroup(groups, groupWeight, p, newGroupWeight);
      groups := placed;
      Charge(r, t, lp64);
      Link(t, totalWeight, newGroupWeight);
      assert Sums() == Pushed(sums, t.Data(), entered);
      EnqueueDone(old(threads), old(groupThreads), sums, t, running, entered);
      if old(Within(threads, running)) {
        WithinPush(old(threads), t, running);
      }
    }

    method Link(t: Thread, totalWeight: nat, newGroupWeight: nat)
      requires t.priority < NR_GROUPS == |groupWeight| == |groupThreads|
      modifies `nrThreads, `weight, `groupWeight, `groupThreads, `threads, t`fsRunq
      ensures nrThreads == old(nrThreads) + 1 && weight == totalWeight && t.fsRunq == this
      ensures groupWeight == old(groupWeight)[t.priority := newGroupWeight]
      ensures groupThreads == old(groupThreads)[t.priority := [t] + old(groupThreads)[t.priority]]
      ensures threads == old(threads) + [t]
    {
      var p := t.priority;
      nrThreads := nrThreads + 1;
      weight := totalWeight;
      groupWeight := groupWeight[p := newGroupWeight];
      groupThreads := groupThreads[p := [t] + groupThreads[p]];
      threads := threads + [t];
      t.fsRunq := this;
    }

    /** Accounts the work of a thread that enters a round. The thread's own copy is cut to 16 bits. */
    method Charge(r: nat, t: Thread, lp64: bool)
      requires |groupWeight| == |groupWork| == NR_GROUPS && t.priority < NR_GROUPS
      modifies `work, `groupWork, t`round, t`work
      ensures t.round == r
      ensures var entered, p := old(Entered(t, r, lp64)), t.priority;
        && t.work == Cut(entered)
        && work == Wrap(old(work) + entered)
        && groupWork == old(groupWork)[p := Wrap(old(groupWork)[p] + entered)]
    {
      hide EnqueueScale, Wrap, Cut;
      var p := t.priority;
      var was: int, before: int := work, groupWork[p];
      WrapFits(was);
      WrapFits(before);
      CutFits(t.work);
      if t.round == r {
        var added: int := t.work;
        work := Wrap(was + added);
        groupWork := groupWork[p := Wrap(before + added)];
      } else {
        var threadWork: Word := 0;
        if weight != 0 {
          var scaled := if groupWeight[p] == 0 then EnqueueScale(work, weight, t.weight, lp64)
                        else EnqueueScale(groupWork[p], groupWeight[p], groupWeight[p] + t.weight, lp64);
          var now: int := scaled;
          WrapAdd(now - before, before);
          WrapFits(now);
          threadWork := Wrap(now - before);
          work := Wrap(was + threadWork);
          groupWork := groupWork[p := scaled];
        }
        CutFits(0);
        t.round := r;
        t.work := Cut(threadWork);
      }
    }

    /** What the state of the queue gives to an enqueue. */
    lemma EnqueueReady(t: Thread, running: Thread?)
      requires Valid(running) && t.fsRunq == null
      ensures t !in threads && |groupWeight| == |groupWork| == |groupThreads| == NR_GROUPS
      ensures Listed(groups, groupWeight)
    {
      hide Listed, Lined, AllData;
      LinedLength(groupThreads, threads, running);
    }

    /** The charge of a newcomer when the works are the sums. */
    lemma EnqueueCharge(t: Thread, running: Thread?, lp64: bool)
      requires Valid(running) && Exact() && t.Fit() && weight + t.weight < WORD32
      ensures |groupWeight| == |groupWork| == NR_GROUPS
      ensures var share := Share(Sums(), t.priority, t.weight);
        && Charged(Sums(), t.priority, t.weight, lp64) == share
        && (share <= t.weight <==> Fair(Sums(), t.priority, t.weight))
        && (Within(threads, null) ==> share <= t.weight)
        && (Calm(threads) && t.weight <= MAX_WEIGHT ==> share < WORD16)
    {
      hide Consistent, Charged, Share, Fair, Listed, Lined, Wrap, Within, Calm, Paced, AllData;
      var d, p := AllData(threads), t.priority;
      ChargedShare(d, Sums(), p, t.weight, lp64);
      ShareWithin(Sums(), p, t.weight);
      if Within(threads, null) {
        WithinData(threads);
        ShareFits(d, Sums(), p, t.weight);
      }
      if Calm(threads) {
        CalmData(threads);
        ShareBelow(d, Sums(), p, t.weight, 16);
      }
    }

    lemma EnqueueDone(was: seq<Thread>, lists: seq<seq<Thread>>, sums: Totals, t: Thread, running: Thread?, entered: Word)
      requires Owned(was, this) && Weighed(AllData(was), sums) && Lined(lists, was, running)
      requires t !in was && t != running && t.fsRunq == this && t.Fit()
      requires |sums.groupWeight| == |sums.groupWork| == NR_GROUPS
      requires threads == was + [t] && Sums() == Pushed(sums, t.Data(), entered)
      requires |lists| == NR_GROUPS && groupThreads == lists[t.priority := [t] + lists[t.priority]]
      requires Listed(groups, groupWeight) && current < NR_GROUPS
      ensures Valid(running)
      ensures Consistent(AllData(was), sums) ==> (Exact() <==> entered == t.work)
      ensures entered == t.work ==> (Exact() <==> Consistent(AllData(was), sums))
    {
      hide Weighed, Consistent, Listed, Lined, AllData;
      AllDataPush(was, t);
      ConsistentPush(AllData(was), sums, t.Data(), entered);
      LinedPush(lists, was, running, t);
      OwnedPush(was, this, t);
    }

    method Dequeue(t: Thread, ghost running: Thread?)
      requires Valid(running) && t in threads && t != running
      modifies this, t
      ensures Valid(running)
      ensures threads == Without(old(threads), t) && t.fsRunq == null
      ensures t.round == old(t.round) && t.Data() == old(t.Data())
      ensures |old(groupWeight)| == |old(groupWork)| == NR_GROUPS && t.priority < NR_GROUPS
      ensures old(nrThreads) > 0 && 0 < t.weight <= old(groupWeight)[t.priority] <= old(weight)
      ensures Sums() == Pulled(old(Sums()), t.Data()) && weight == old(weight) - t.weight
      ensures Exact() <==> old(Exact())
      ensures groupThreads == old(groupThreads[t.priority := Without(groupThreads[t.priority], t)])
      ensures if groupWeight[t.priority] == 0 then groups == Without(old(groups), t.priority)
              else Placed(groups, old(groups), old(groupWeight), t.priority, groupWeight[t.priority], true)
      ensures current == old(current) && (old(current in groups) ==> Linked())
      ensures old(current in groups) && current !in groups ==> Next() == old(Next())
      ensures forall u :: u in threads <==> u in old(threads) && u != t
      ensures old(Within(threads, running)) ==> Within(threads, running) && t.work <= t.weight
      ensures old(Within(threads, t)) ==> Within(threads, null)
    {
      hide Weighed, Consistent, Listed, Lined, Placed, AllData, Without, Within, Wrap, Next, Linked, Owned;
      var p := t.priority;
      ghost var sums := Sums();
      ghost var d := AllData(threads);
      AllDataIs(threads);
      DequeueReady(t, running);
      Unlink(t);
      var newGroupWeight := groupWeight[p] - t.weight;
      LeaveList(p, newGroupWeight);
      groupWeight := groupWeight[p := newGroupWeight];
      DequeueDone(d, old(threads), sums, t, running);
    }

    /** Takes a thread and its work out of the queue, and its weight out of the queue's. */
    method Unlink(t: Thread)
      requires t.priority < NR_GROUPS == |groupWork| == |groupThreads| && nrThreads > 0 && t.weight <= weight
      modifies `nrThreads, `weight, `work, `groupWork, `groupThreads, `threads, t`fsRunq
      ensures nrThreads == old(nrThreads) - 1 && weight == old(weight) - t.weight && t.fsRunq == null
      ensures work == Wrap(old(work) - t.work)
      ensures groupWork == old(groupWork)[t.priority := Wrap(old(groupWork)[t.priority] - t.work)]
      ensures groupThreads == old(groupThreads)[t.priority := Without(old(groupThreads)[t.priority], t)]
      ensures threads == Without(old(threads), t)
    {
      hide Without, Wrap;
      var p := t.priority;
      t.fsRunq := null;
      threads := Without(threads, t);
      groupThreads := groupThreads[p := Without(groupThreads[p], t)];
      var newWork: int, newGroupWork: int := work, groupWork[p];
      work := Wrap(newWork - t.work);
      groupWork := groupWork[p := Wrap(newGroupWork - t.work)];
      weight := weight - t.weight;
      nrThreads := nrThreads - 1;
    }

    /** Moves or unlinks a group that lost weight. The links of an unlinked group stay as they were. */
    method LeaveList(p: nat, newGroupWeight: nat)
      requires Listed(groups, groupWeight) && p < |groupWeight| && newGroupWeight < groupWeight[p]
      modifies `groups, `left
      ensures if newGroupWeight == 0 then groups == Without(old(groups), p)
              else Placed(groups, old(groups), groupWeight, p, newGroupWeight, true)
      ensures Listed(groups, groupWeight[p := newGroupWeight])
      ensures old(current in groups) ==> Linked()
      ensures old(current in groups) && current !in groups ==> Next() == old(Next())
    {
      hide Placed, Without, Sorted, Follower;
      var next := Next();
      ghost var linked := current in groups;
      if linked {
        FollowerOther(groups, current);
      }
      WithoutParts(groups, p);
      var lowered := LowerGroup(groups, groupWeight, p, newGroupWeight);
      groups := lowered;
      if newGroupWeight == 0 && p == current {
        left := next;
      }
      if current in groups {
        FollowerIn(groups, current);
      }
    }

    /** Takes a thread out of its group's list, as it starts running. */
    method Take(t: Thread)
      requires Valid(null) && t in threads
      modifies `groupThreads
      ensures Valid(t) && t.priority < NR_GROUPS == |old(groupThreads)|
      ensures groupThreads == old(groupThreads)[t.priority := Without(old(groupThreads)[t.priority], t)]
    {
      hide Weighed, Listed, Lined, AllData, Without;
      LinedLength(groupThreads, threads, null);
      LinedStart(groupThreads, threads, t);
      groupThreads := groupThreads[t.priority := Without(groupThreads[t.priority], t)];
    }

    /** Puts the running thread at the back of its group's list. */
    method Put(t: Thread)
      requires Valid(t) && t in threads
      modifies `groupThreads
      ensures Valid(null) && t.priority < NR_GROUPS == |old(groupThreads)|
      ensures groupThreads == old(groupThreads)[t.priority := old(groupThreads)[t.priority] + [t]]
    {
      hide Weighed, Listed, Lined, AllData;
      LinedLength(groupThreads, threads, t);
      LinedStop(groupThreads, threads, t);
      groupThreads := groupThreads[t.priority := groupThreads[t.priority] + [t]];
    }

    /** Accounts a tick of work to a thread. */
    method Work(t: Thread, ghost running: Thread?)
      requires Valid(running) && t in threads
      modifies `work, `groupWork, t`work
      ensures Valid(running) && t.priority < NR_GROUPS == |old(groupWork)|
      ensures t.Data() == Worked(old(t.Data())) && Sums() == Ticked(old(Sums()), t.priority)
      ensures old(Exact()) ==> (Exact() <==> old(t.work) < WORD16 - 1)
      ensures old(Within(threads, t)) ==> Within(threads, t)
    {
      hide Weighed, Consistent, Listed, Lined, Owned, AllData, Wrap, Cut;
      ghost var sums, d, i := Sums(), AllData(threads), Position(threads, t);
      AllDataIs(threads);
      OwnedOnce(threads, this, i);
      PartsBelow(d, sums, i);
      SumsLength(d, sums);
      var p := t.priority;
      var newWork: int, newGroupWork: int := work, groupWork[p];
      work := Wrap(newWork + 1);
      groupWork := groupWork[p := Wrap(newGroupWork + 1)];
      t.work := Cut(t.work + 1);
      ConsistentTick(d, sums, i);
      AllDataIs(threads);
      assert AllData(threads) == d[i := Worked(d[i])];
    }

    /** Makes a group the current one. */
    method Point(g: nat, ghost running: Thread?)
      requires Valid(running) && g < NR_GROUPS
      modifies `current
      ensures Valid(running) && current == g
    {
      hide Weighed, Listed, Lined, Owned, AllData;
      current := g;
    }

    /**
     * The group to run next: the one after the current group when that is
     * ahead of it, and the heaviest one otherwise.
     */
    function Choice(lp64: bool): nat
      requires groups != [] && Linked() && |groupWeight| == |groupWork| == NR_GROUPS
      requires current < NR_GROUPS && forall g :: g in groups ==> g < NR_GROUPS
      reads `groups, `current, `left, `groupWeight, `groupWork
    {
      match Next()
      case None => groups[0]
      case Some(next) =>
        if RatioExceeded(groupWork[current], groupWeight[current], groupWork[next], groupWeight[next], lp64) then next
        else groups[0]
    }

    lemma ChoiceListed(lp64: bool)
      requires groups != [] && Linked() && |groupWeight| == |groupWork| == NR_GROUPS
      requires current < NR_GROUPS && forall g :: g in groups ==> g < NR_GROUPS
      ensures Choice(lp64) in groups
    {}

    /** Every group on the list has a thread ready to run. */
    lemma GroupReady(g: nat)
      requires Valid(null) && g in groups
      ensures g < |groupThreads| && groupThreads[g] != []
      ensures groupThreads[g][0] in threads && groupThreads[g][0].priority == g
    {
      var d := AllData(threads);
      assert groupWeight[g] > 0;
      TotalPositive(d, g);
      var i :| 0 <= i < |d| && (g == ALL || d[i].priority == g);
      assert threads[i] in groupThreads[g];
    }

    lemma DequeueReady(t: Thread, running: Thread?)
      requires Valid(running) && t in threads && t != running
      ensures |groupWeight| == |groupWork| == |groupThreads| == NR_GROUPS
      ensures var p := t.priority; p < NR_GROUPS && nrThreads > 0 && 0 < t.weight <= groupWeight[p] <= weight
      ensures Listed(groups, groupWeight)
      ensures Without(threads, t) == threads[..Position(threads, t)] + threads[Position(threads, t) + 1..]
      ensures Owned(Without(threads, t), this) && t !in Without(threads, t)
      ensures forall u :: u in Without(threads, t) <==> u in threads && u != t
      ensures Within(threads, running) ==> Within(Without(threads, t), running) && t.work <= t.weight
      ensures Within(threads, t) ==> Within(Without(threads, t), null)
      ensures Lined(groupThreads[t.priority := Without(groupThreads[t.priority], t)], Without(threads, t), running)
    {
      hide Listed, Lined, Wrap;
      var i := Position(threads, t);
      PartsBelow(AllData(threads), Sums(), i);
      LinedLength(groupThreads, threads, running);
      LinedDrop(groupThreads, threads, running, t);
      WithoutParts(threads, t);
    }

    lemma DequeueDone(d: seq<FsData>, was: seq<Thread>, sums: Totals, t: Thread, running: Thread?)
      requires t in was && Weighed(d, sums)
      requires |d| == |was| && forall i :: 0 <= i < |was| ==> d[i] == was[i].Data()
      requires threads == Without(was, t) && Owned(threads, this)
      requires t.priority < |sums.groupWeight| == |sums.groupWork|
      requires sums.nrThreads > 0 && t.weight <= sums.groupWeight[t.priority] && t.weight <= sums.weight
      requires Sums() == Pulled(sums, t.Data())
      requires Lined(groupThreads, threads, running)
      requires Listed(groups, groupWeight) && current < NR_GROUPS
      ensures Valid(running)
      ensures Exact() <==> Consistent(d, sums)
    {
      hide Weighed, Consistent, Listed, Lined, AllData, Pulled;
      var i := Position(was, t);
      AllDataIs(was);
      assert AllData(was) == d;
      ConsistentDrop(d, sums, i);
      AllDataDrop(was, i);
    }
  }

  /** The element after another one. */
  function Follower<T(==)>(s: seq<T>, x: T): (r: Option<T>)
    requires x in s
    ensures r.Some? ==> r.value in s
  {
    var i := Position(s, x) + 1;
    if i < |s| then Some(s[i]) else None
  }

  lemma FollowerIn<T>(s: seq<T>, x: T)
    requires x in s
    ensures Follower(s, x).Some? ==> Follower(s, x).value in s
  {}

  lemma FollowerOther<T>(s: seq<T>, x: T)
    requires NoDup(s) && x in s
    ensures Follower(s, x).Some? ==> Follower(s, x).value in s && Follower(s, x).value != x
  {}

  lemma AllDataIs(threads: seq<Thread>)
    ensures |AllData(threads)| == |threads|
    ensures forall i :: 0 <= i < |threads| ==> AllData(threads)[i] == threads[i].Data()
  {}

  lemma OwnedOnce(threads: seq<Thread>, q: FsRunq, i: nat)
    requires Owned(threads, q) && i < |threads|
    ensures forall k :: 0 <= k < |threads| && k != i ==> threads[k] != threads[i]
  {}

  lemma SumsLength(d: seq<FsData>, t: Totals)
    requires Weighed(d, t)
    ensures |t.groupWeight| == |t.groupWork| == NR_GROUPS
  {}

  lemma LinedLength(lists: seq<seq<Thread>>, threads: seq<Thread>, running: Thread?)
    requires Lined(lists, threads, running)
    ensures |lists| == NR_GROUPS
  {}

  /** A queue without weight has no thread, and one with threads has a group. */
  lemma EmptyQueue(q: FsRunq, running: Thread?)
    requires q.Valid(running)
    ensures q.weight == 0 <==> q.threads == []
    ensures q.nrThreads == |q.threads|
    ensures q.groups == [] <==> q.threads == []
  {
    var d := AllData(q.threads);
    if q.threads != [] {
      PartsBelow(d, q.Sums(), 0);
      assert q.groupWeight[d[0].priority] > 0;
      assert d[0].priority in q.groups;
    } else if q.groups != [] {
      assert q.groups[0] in q.groups;
      NoWeight(d, q.Sums(), q.groups[0]);
    }
  }

  lemma NoWeight(d: seq<FsData>, t: Totals, g: nat)
    requires Weighed(d, t) && g < NR_GROUPS && d == []
    ensures t.groupWeight[g] == 0
  {}

  lemma NotQueued(q: FsRunq, running: Thread?, t: Thread)
    requires q.Valid(running) && t.fsRunq != q
    ensures t !in q.threads && Without(q.threads, t) == q.threads
  {
    WithoutNone(q.threads, t);
  }

  // ---- The run queues of a processor ----

  /** The kernel halts when the weight of a processor wraps, or on a failed assertion. */
  datatype Outcome = Done | WeightOverflow | AssertFailed

  class Runq {
    /** Whether long integers, such as the rounds, have 64 bits. */
    const lp64: bool
    var fsRound: nat
    var fsWeight: nat
    var active: FsRunq
    var expired: FsRunq
    /** The running thread, when it is a fair-scheduling one. */
    var running: Thread?
    /** Whether the current thread of the processor was asked to yield. */
    var yieldFlag: bool

    function Rounds(): nat {
      if lp64 then WORD64 else WORD32
    }

    ghost predicate Queues()
      reads this, active, expired, active.threads, expired.threads
    {
      && active != expired
      && active.Valid(running) && expired.Valid(running)
      && fsRound < Rounds()
      && (forall t :: t in active.threads ==> t.round == fsRound)
      && (forall t :: t in expired.threads ==> t.round == (fsRound + 1) % Rounds())
      && (running != null ==> running in active.threads)
    }

    ghost predicate Kept()
      reads this, active, expired, active.threads, expired.threads
    {
      Queues() && fsWeight == active.weight + expired.weight < WORD32
    }

    ghost predicate Valid()
      reads this, active, expired, active.threads, expired.threads
    {
      Kept() && (active.threads != [] ==> active.current in active.groups)
    }

    /** The state in which the next thread is picked: the current group may just have left the list. */
    ghost predicate Ready()
      reads this, active, expired, active.threads, expired.threads
    {
      Kept() && (active.threads != [] ==> active.Linked())
    }

    /** The works of both queues are the sums over their threads. */
    ghost predicate Exact()
      reads this, active, expired, active.threads, expired.threads
    {
      active.Exact() && expired.Exact()
    }

    /** Every thread but the running one is within its weight. */
    ghost predicate Bounded()
      reads this, active, expired, active.threads, expired.threads
    {
      Within(active.threads, running) && Within(expired.threads, null)
    }

    /** Every thread is within its weight. */
    ghost predicate Steady()
      reads this, active, expired, active.threads, expired.threads
    {
      Within(active.threads, null) && Within(expired.threads, null)
    }

    lemma SteadyBounded()
      requires Kept()
      ensures Steady() <==> Bounded() && (running != null ==> running.work <= running.weight)
    {}

    lemma ValidReady()
      requires Valid()
      ensures Ready()
    {
      hide FsRunq.Valid;
    }

    lemma InQueue(t: Thread)
      requires Kept() && (t in active.threads || t in expired.threads)
      ensures t.fsRunq == if t in active.threads then active else expired
      ensures t !in active.threads || t !in expired.threads
      ensures t.weight <= fsWeight && t.Fit()
    {
      var q := if t in active.threads then active else expired;
      PartsBelow(AllData(q.threads), q.Sums(), Position(q.threads, t));
    }

    constructor (lp64: bool)
      ensures this.lp64 == lp64
      ensures Valid() && Steady() && Exact() && active.threads == [] && expired.threads == [] && running == null
      ensures fresh(active) && fresh(expired) && fsWeight == 0
    {
      this.lp64 := lp64;
      fsRound, fsWeight, running, yieldFlag := 0, 0, null, false;
      active := new FsRunq();
      expired := new FsRunq();
      new;
      EmptyQueue(active, null);
      EmptyQueue(expired, null);
    }

    method Restart()
      requires active.Valid(running) && active.groups != []
      modifies active`current, `yieldFlag
      ensures active.Valid(running)
      ensures active.current == active.groups[0]
      ensures yieldFlag == (old(yieldFlag) || running != null)
    {
      hide FsRunq.Valid;
      GroupsFit(active, running);
      assert active.groups[0] in active.groups;
      active.Point(active.groups[0], running);
      if running != null {
        yieldFlag := true;
      }
    }

    /**
     * Adds a thread, at any time: also while the running thread is over its
     * weight, having yet to yield.
     */
    method Add(t: Thread, highestRound: nat) returns (outcome: Outcome)
      requires Valid() && t.fsRunq == null && t.Fit() && highestRound < Rounds()
      modifies this, active, t
      ensures active == old(active) && expired == old(expired) && running == old(running)
      ensures outcome == if old(fsWeight) + t.weight >= WORD32 then WeightOverflow
                         else if old(t.work) > t.weight then AssertFailed else Done
      ensures t.weight == old(t.weight) && t.priority == old(t.priority)
      ensures |old(active.groupWeight)| == |old(active.groupWork)| == NR_GROUPS && t.priority < NR_GROUPS
      ensures outcome == Done ==>
                && Valid()
                && active.threads == old(active.threads) + [t] && expired.threads == old(expired.threads)
                && fsWeight == old(fsWeight) + t.weight
                && fsRound == (if old(fsWeight) == 0 then highestRound else old(fsRound))
                && t.fsRunq == active && t.round == fsRound
      ensures outcome == Done ==>
                var round := fsRound;
                var entered := old(active.Entered(t, round, lp64));
                && t.work == Cut(entered) && active.Sums() == Pushed(old(active.Sums()), t.Data(), entered)
                && (old(fsWeight) == 0 && old(t.round) != round ==> entered == 0)
      ensures outcome == Done && old(t.round) == fsRound ==>
                t.work == old(t.work) && (Exact() <==> old(Exact()))
      ensures outcome == Done && old(t.round) != fsRound && old(Exact()) ==>
                var share := old(Share(active.Sums(), t.priority, t.weight));
                && (Exact() <==> share < WORD16)
                && (share < WORD16 ==>
                      t.work == share && (t.work <= t.weight <==> old(Fair(active.Sums(), t.priority, t.weight))))
      ensures outcome == Done && old(Exact() && Steady()) ==> Exact() && t.work <= t.weight
      ensures outcome == Done && old(Exact() && Calm(active.threads)) && t.weight <= MAX_WEIGHT ==> Exact()
      ensures outcome == Done && old(Bounded()) ==> (Bounded() <==> t.work <= t.weight)
    {
      hide FsRunq.Valid, FsRunq.Exact, Owned, Share, Fair, Pushed, Charged, Within, Calm, Cut, FsRunq.Next, FsRunq.Linked;
      SumsFit(active, running);
      if fsWeight == 0 {
        EmptyQueue(active, running);
        EmptyQueue(expired, running);
        ChargeOfNone(active.Sums(), t.priority, t.weight, lp64);
        fsRound := highestRound;
      }
      var totalWeight := (fsWeight + t.weight) % WORD32;
      if totalWeight < fsWeight {
        return WeightOverflow;
      }
      fsWeight := totalWeight;
      if t.work > t.weight {
        return AssertFailed;
      }
      outcome := Done;
      Enter(t);
    }

    /** The part of an addition after the weight of the processor was raised. */
    method Enter(t: Thread)
      requires Queues() && t.fsRunq == null && t.Fit() && t.work <= t.weight
      requires fsWeight == active.weight + expired.weight + t.weight < WORD32
      modifies `yieldFlag, active, t
      ensures Valid() && t.weight == old(t.weight) && t.priority == old(t.priority)
      ensures |old(active.groupWeight)| == |old(active.groupWork)| == NR_GROUPS && t.priority < NR_GROUPS
      ensures active.threads == old(active.threads) + [t] && t.fsRunq == active && t.round == fsRound
      ensures var entered := old(active.Entered(t, fsRound, lp64));
        t.work == Cut(entered) && active.Sums() == Pushed(old(active.Sums()), t.Data(), entered)
      ensures old(t.round) == fsRound ==> t.work == old(t.work) && (Exact() <==> old(Exact()))
      ensures old(t.round) != fsRound && old(Exact()) ==>
                var share := old(Share(active.Sums(), t.priority, t.weight));
                && (Exact() <==> share < WORD16)
                && (share < WORD16 ==>
                      t.work == share && (t.work <= t.weight <==> old(Fair(active.Sums(), t.priority, t.weight))))
      ensures old(Exact() && Steady()) ==> Exact() && t.work <= t.weight
      ensures old(Exact() && Calm(active.threads)) && t.weight <= MAX_WEIGHT ==> Exact()
      ensures old(Bounded()) ==> (Bounded() <==> t.work <= t.weight)
    {
      hide FsRunq.Valid, FsRunq.Exact, Owned, Placed, Share, Fair, Pushed, Charged, Within, Calm, Cut, FsRunq.Next, FsRunq.Linked;
      hide Rounds;
      NotQueued(active, running, t);
      NotQueued(expired, running, t);
      SumsFit(active, running);
      CutFits(active.Entered(t, fsRound, lp64));
      active.Enqueue(fsRound, t, lp64, running);
      assert expired.Valid(running);
      EmptyQueue(active, running);
      Restart();
    }

    /** Takes a thread out of the queue it is in. */
    method Unlink(t: Thread)
      requires Kept() && t != running
      requires t in active.threads || t in expired.threads
      modifies `fsWeight, active, expired, t
      ensures Kept()
      ensures active.threads == Without(old(active.threads), t)
      ensures expired.threads == Without(old(expired.threads), t)
      ensures t.fsRunq == null && t.Fit() && t.Data() == old(t.Data()) && t.round == old(t.round)
      ensures fsWeight == old(fsWeight) - t.weight
      ensures if old(t.fsRunq) == active then unchanged(expired) && Lost(old(active.Sums()), t.Data(), active.Sums())
              else unchanged(active) && Lost(old(expired.Sums()), t.Data(), expired.Sums())
      ensures Exact() <==> old(Exact())
      ensures old(Bounded()) ==> Bounded() && t.work <= t.weight
    {
      hide FsRunq.Valid, FsRunq.Exact, Owned, Placed, Pulled, Within, Without;
      InQueue(t);
      fsWeight := fsWeight - t.weight;
      if t.fsRunq == active {
        NotQueued(expired, running, t);
        active.Dequeue(t, running);
        assert expired.Valid(running);
      } else {
        NotQueued(active, running, t);
        WithinAny(active, expired, running);
        expired.Dequeue(t, running);
        assert active.Valid(running);
        WithinAny(active, expired, running);
      }
    }

    method Remove(t: Thread) returns (wakeBalancer: bool)
      requires Ready() && t != running
      requires t in active.threads || t in expired.threads
      modifies `fsWeight, `yieldFlag, active, expired, t
      ensures Ready() && (old(Valid()) || old(t.fsRunq) == active ==> Valid())
      ensures active.threads == Without(old(active.threads), t)
      ensures expired.threads == Without(old(expired.threads), t)
      ensures t.fsRunq == null && t.Fit() && t.Data() == old(t.Data()) && t.round == old(t.round)
      ensures fsWeight == old(fsWeight) - t.weight
      ensures if old(t.fsRunq) == active then unchanged(expired) && Lost(old(active.Sums()), t.Data(), active.Sums())
              else unchanged(active) && Lost(old(expired.Sums()), t.Data(), expired.Sums())
      ensures Exact() <==> old(Exact())
      ensures old(Bounded()) ==> Bounded() && t.work <= t.weight
      ensures wakeBalancer <==> old(t.fsRunq == active) && active.threads == []
    {
      hide FsRunq.Valid, FsRunq.Exact, Owned, Placed, Within, Without, Lost;
      wakeBalancer := false;
      var fsRunq := t.fsRunq;
      Unlink(t);
      if fsRunq == active {
        EmptyQueue(active, running);
        if active.nrThreads == 0 {
          wakeBalancer := true;
        } else {
          Restart();
        }
      }
    }

    /** Two processors have their own run queues. */
    ghost predicate Apart(remote: Runq) reads this, remote {
      remote != this && {active, expired} !! {remote.active, remote.expired}
    }

    /**
     * A balancer takes a waiting thread over from another processor. The
     * work it did is kept, unless the processor that takes it was idle and
     * starts in another round.
     */
    method Pull(remote: Runq, t: Thread, highestRound: nat) returns (outcome: Outcome)
      requires Valid() && remote.Valid() && Apart(remote) && highestRound < Rounds()
      requires (t in remote.active.threads || t in remote.expired.threads) && t != remote.running
      modifies this, active, t, remote, remote.active, remote.expired
      ensures outcome == if old(fsWeight) + t.weight >= WORD32 then WeightOverflow
                         else if old(t.work) > t.weight then AssertFailed else Done
      ensures outcome == Done ==>
                && Valid() && active.threads == old(active.threads) + [t]
                && t.work == (if old(fsWeight) == 0 && old(fsRound) != highestRound then 0 else old(t.work))
                && (old(Exact()) ==> Exact())
      ensures t.weight == old(t.weight) && t.priority == old(t.priority)
      ensures outcome == Done && old(Bounded()) ==> Bounded()
      ensures remote.active == old(remote.active) && remote.expired == old(remote.expired)
      ensures remote.Valid() && (remote.Exact() <==> old(remote.Exact()))
      ensures remote.active.threads == Without(old(remote.active.threads), t)
      ensures remote.expired.threads == Without(old(remote.expired.threads), t)
    {
      hide FsRunq.Valid, FsRunq.Exact, Owned, Within, Without, Lost, Rounds, FsRunq.Next, FsRunq.Linked;
      remote.InQueue(t);
      NotQueued(active, running, t);
      NotQueued(expired, running, t);
      remote.ValidReady();
      var wakeBalancer := remote.Remove(t);
      NotQueued(remote.active, remote.running, t);
      NotQueued(remote.expired, remote.running, t);
      assert Valid();
      outcome := Adopt(t, highestRound);
      assert remote.Valid();
    }

    /** Adds a thread as one of the current round. */
    method Adopt(t: Thread, highestRound: nat) returns (outcome: Outcome)
      requires Valid() && t.fsRunq == null && t.Fit() && highestRound < Rounds()
      modifies this, active, t
      ensures active == old(active) && expired == old(expired) && running == old(running)
      ensures outcome == if old(fsWeight) + t.weight >= WORD32 then WeightOverflow
                         else if old(t.work) > t.weight then AssertFailed else Done
      ensures t.weight == old(t.weight) && t.priority == old(t.priority)
      ensures outcome == Done ==>
                && Valid() && active.threads == old(active.threads) + [t]
                && t.work == (if old(fsWeight) == 0 && old(fsRound) != highestRound then 0 else old(t.work))
                && (old(Exact()) ==> Exact())
                && (old(Bounded()) ==> Bounded())
    {
      hide FsRunq.Valid, FsRunq.Exact, Owned, Share, Fair, Pushed, Within, Charged, Cut, Calm, Rounds;
      hide FsRunq.Next, FsRunq.Linked, FsRunq.Entered;
      NotQueued(active, running, t);
      NotQueued(expired, running, t);
      t.round := fsRound;
      SumsFit(active, running);
      CutFits(0);
      if fsWeight == 0 {
        EmptyQueue(active, running);
        ShareOfNone(active.Sums(), t.priority, t.weight);
      }
      outcome := Add(t, highestRound);
    }

    // ---- Running threads ----

    method SetNext(t: Thread)
      requires Valid() && running == null && t in active.threads
      modifies `running, active`groupThreads
      ensures Valid() && running == t && t.priority < NR_GROUPS == |old(active.groupThreads)|
      ensures active.groupThreads
              == old(active.groupThreads)[t.priority := Without(old(active.groupThreads)[t.priority], t)]
      ensures Exact() <==> old(Exact())
      ensures old(Steady()) ==> Steady()
    {
      hide Weighed, Consistent, Listed, Lined, AllData, Without, Owned, Within;
      active.Take(t);
      running := t;
      StillQueued(null);
    }

    /** Picks the first thread of the group to run next. */
    method GetNext() returns (t: Thread?)
      requires Ready() && running == null
      modifies `running, active`groupThreads, active`current
      ensures Valid() && running == t
      ensures t == null <==> active.threads == []
      ensures t != null ==>
                var g := active.current;
                && old(active.groups) != [] && g == old(active.Choice(lp64))
                && g in active.groups && t.priority == g
                && g < |old(active.groupThreads)| && old(active.groupThreads)[g] != []
                && t == old(active.groupThreads)[g][0]
                && active.groupThreads == old(active.groupThreads)[g := old(active.groupThreads)[g][1..]]
      ensures Exact() <==> old(Exact())
      ensures old(Steady()) ==> Steady()
    {
      hide FsRunq.Valid, FsRunq.Exact, Without, Within, FsRunq.Next, FsRunq.Linked, FsRunq.Choice, Rounds;
      EmptyQueue(active, running);
      if active.nrThreads == 0 {
        return null;
      }
      SumsFit(active, null);
      GroupsFit(active, null);
      var g := active.Choice(lp64);
      active.ChoiceListed(lp64);
      active.GroupReady(g);
      active.Point(g, null);
      t := active.groupThreads[g][0];
      WithoutHead(active.groupThreads[g]);
      SetNext(t);
    }

    /** The running thread is not in the expired queue. */
    lemma StillQueued(was: Thread?)
      requires active != expired && active.Valid(running) && expired.Valid(was)
      requires running != null ==> running in active.threads
      requires was != null ==> was in active.threads
      ensures expired.Valid(running)
    {
      hide Weighed, Listed, AllData;
    }

    /** Accounts a tick to the running thread, and asks it to yield. Any number of ticks can come before it does. */
    method Tick()
      requires Valid() && running != null
      modifies `yieldFlag, active`work, active`groupWork, running`work
      ensures Valid() && yieldFlag && running.priority < NR_GROUPS == |old(active.groupWork)|
      ensures running.Data() == Worked(old(running.Data()))
      ensures active.Sums() == Ticked(old(active.Sums()), running.priority)
      ensures old(Exact()) ==> (Exact() <==> old(running.work) < WORD16 - 1)
      ensures old(Bounded()) ==> Bounded() && (Steady() <==> running.work <= running.weight)
    {
      hide FsRunq.Valid, FsRunq.Exact, Wrap, Cut, Ticked, Worked, Rounds;
      InQueue(running);
      NotQueued(expired, running, running);
      active.Work(running, running);
      yieldFlag := true;
    }

    /**
     * Puts the running thread back, and moves it to the expired queue when it
     * used up its share of the round.
     */
    method PutPrev() returns (outcome: Outcome, wakeBalancer: bool)
      requires Valid() && running != null
      modifies this, active, expired, running
      ensures active == old(active) && expired == old(expired)
      ensures outcome == if old(running.work) > 2 * old(running).weight then AssertFailed else Done
      ensures outcome == Done ==>
                && Ready() && running == null && (Exact() <==> old(Exact())) && (old(Bounded()) ==> Steady())
                && fsRound == old(fsRound) && fsWeight == old(fsWeight)
                && var t: Thread := old(running);
                   t.weight == old(t.weight) &&
                   if old(t.work) < t.weight then
                     && active.threads == old(active.threads) && unchanged(expired)
                     && active.Sums() == old(active.Sums()) && Valid()
                     && t.Data() == old(t.Data()) && t.fsRunq == active && !wakeBalancer
                   else
                     && active.threads == Without(old(active.threads), t) && expired.threads == old(expired.threads) + [t]
                     && t.work == old(t.work) - t.weight && t.round == (fsRound + 1) % Rounds()
                     && (wakeBalancer <==> active.threads == [])
    {
      hide FsRunq.Valid, FsRunq.Exact, Without;
      var t: Thread := running;
      InQueue(t);
      active.Put(t);
      running := null;
      StillQueued(t);
      assert Valid();
      outcome, wakeBalancer := Done, false;
      if t.work >= t.weight {
        outcome, wakeBalancer := Deactivate(t);
      }
    }

    method Deactivate(t: Thread) returns (outcome: Outcome, wakeBalancer: bool)
      requires Valid() && running == null && t in active.threads && t.weight <= t.work
      modifies this, active, expired, t
      ensures active == old(active) && expired == old(expired) && t.weight == old(t.weight)
      ensures outcome == if old(t.work) > 2 * t.weight then AssertFailed else Done
      ensures outcome == Done ==>
                && Ready() && running == null && (Exact() <==> old(Exact()))
                && (old(Within(active.threads, t) && Within(expired.threads, null)) ==> Steady())
                && fsRound == old(fsRound) && fsWeight == old(fsWeight)
                && active.threads == Without(old(active.threads), t) && expired.threads == old(expired.threads) + [t]
                && t.work == old(t.work) - t.weight && t.round == (fsRound + 1) % Rounds()
                && (wakeBalancer <==> active.threads == [])
    {
      hide FsRunq.Valid, FsRunq.Exact, Placed, Without, Share, Fair, Pushed, Pulled, Within, Cut, Charged, Calm;
      hide Rounds, FsRunq.Linked, FsRunq.Next, FsRunq.Entered;
      InQueue(t);
      NotQueued(expired, null, t);
      assert t.fsRunq == active && t.round == fsRound;
      active.Dequeue(t, null);
      assert expired.Valid(null);
      t.round := (t.round + 1) % Rounds();
      t.work := t.work - t.weight;
      outcome, wakeBalancer := Done, false;
      if t.work > t.weight {
        return AssertFailed, false;
      }
      expired.Enqueue((fsRound + 1) % Rounds(), t, lp64, null);
      assert active.Valid(null);
      EmptyQueue(active, null);
      wakeBalancer := active.nrThreads == 0;
    }

    /** Reschedules: the running thread is put back, or removed when it goes to sleep, and the next one picked. */
    method Schedule(sleeps: bool) returns (outcome: Outcome, next: Thread?)
      requires Valid() && running != null
      modifies this, active, expired, running
      ensures outcome == if old(running.work) > 2 * old(running).weight then AssertFailed else Done
      ensures outcome == Done ==>
                && Valid() && running == next && (next == null <==> active.threads == [])
                && (Exact() <==> old(Exact())) && (old(Bounded()) ==> Steady())
                && (old(running).fsRunq == null <==> sleeps)
    {
      hide FsRunq.Valid, FsRunq.Exact, Without, Within, Owned, Lost;
      var prev: Thread := running;
      InQueue(prev);
      var wakeBalancer;
      outcome, wakeBalancer := PutPrev();
      if outcome != Done {
        return outcome, null;
      }
      assert prev in active.threads || prev in expired.threads;
      InQueue(prev);
      if sleeps {
        SteadyBounded();
        wakeBalancer := Remove(prev);
        SteadyBounded();
      }
      next := GetNext();
    }

    /** Swaps the queues once the active one is empty. */
    method StartNextRound(highestRound: nat) returns (newHighest: nat)
      requires Valid() && active.threads == [] && highestRound < Rounds()
      modifies this, active, expired
      ensures Valid() && running == null && newHighest < Rounds() && (old(Bounded()) ==> Steady())
      ensures Exact() <==> old(Exact())
      ensures active == old(expired) && expired == old(active) && fsWeight == old(fsWeight)
      ensures active.threads == old(expired.threads) && expired.threads == []
      ensures fsRound == if active.threads == [] then old(fsRound) else (old(fsRound) + 1) % Rounds()
      ensures newHighest == if active.threads != [] && 0 < (fsRound - highestRound) % Rounds() < Rounds() / 2
                            then fsRound else highestRound
    {
      hide FsRunq.Valid, FsRunq.Exact, Within;
      newHighest := highestRound;
      EmptyQueue(expired, running);
      active, expired := expired, active;
      if active.nrThreads != 0 {
        fsRound := (fsRound + 1) % Rounds();
        var delta := (fsRound - highestRound) % Rounds();
        if 0 < delta < Rounds() / 2 {
          newHighest := fsRound;
        }
        Restart();
      }
    }
  }

  /** The totals of a queue that a thread left. */
  ghost predicate Lost(was: Totals, d: FsData, now: Totals) {
    && d.priority < |was.groupWeight| == |was.groupWork|
    && was.nrThreads > 0 && d.weight <= was.groupWeight[d.priority] && d.weight <= was.weight
    && now == Pulled(was, d)
  }

  /**
   * The choice is the one of the ratios: the group after the current one
   * when the current one did more per weight, and else the heaviest.
   */
  lemma ChoiceExact(q: FsRunq, lp64: bool)
    requires q.Valid(null) && q.Exact() && Within(q.threads, null) && q.weight < WORD32
    requires q.groups != [] && q.Linked()
    ensures |q.groupWeight| == |q.groupWork| == NR_GROUPS && forall g :: g in q.groups ==> g < NR_GROUPS
    ensures q.Next().Some? ==>
              var g, next := q.current, q.Next().value;
              q.Choice(lp64) == if Ahead(q.groupWork[g], q.groupWeight[g], q.groupWork[next], q.groupWeight[next])
                                then next else q.groups[0]
  {
    hide Listed, Lined, AllData, FsRunq.Next, Consistent, Weighed, Within, RatioExceeded, Ahead;
    SumsFit(q, null);
    GroupsFit(q, null);
    WithinData(q.threads);
    WithinWeight(AllData(q.threads), q.Sums());
    if q.Next().Some? {
      var g, next := q.current, q.Next().value;
      RatioExact(q.groupWork[g], q.groupWeight[g], q.groupWork[next], q.groupWeight[next], lp64);
    }
  }

  // ---- Runs ----

  /**
   * A run that overcharges. A thread gets one tick more than its weight before
   * it yields, and meanwhile a thread of the same priority is added: it is
   * charged more than its weight, and the assertion of the next enqueue fails
   * when a balancer pulls it.
   */
  method OverchargeRun(p: nat, sliceBase: nat, lp64: bool) returns (charged: nat, outcome: Outcome)
    requires p < NR_GROUPS && 10 <= sliceBase <= 100
    ensures charged == Prio2Weight(p, sliceBase) + 1 && outcome == AssertFailed
  {
    hide FsRunq.Valid, FsRunq.Exact, Share, Fair, Pushed, Within, Without, Charged, Cut, Calm;
    WeightFits(p, sliceBase);
    var queue, first := RunAlone(p, sliceBase, lp64);
    TickTimes(queue, first, first.weight + 1);
    OverchargedQueue(queue.active, first, p, first.weight);
    var late := new Thread(p, sliceBase);
    outcome := queue.Add(late, 1);
    charged := late.work;
    outcome := PullAway(queue, late, lp64);
  }

  /**
   * A run that loses work. The only thread of a processor gets 2^16 ticks
   * before it yields: its own work is back to zero, that of its group and
   * queue is not, and stays when the thread goes to sleep.
   */
  method DriftRun(p: nat, sliceBase: nat, lp64: bool) returns (queue: Runq, work: nat, outcome: Outcome)
    requires p < NR_GROUPS && 10 <= sliceBase <= 100
    ensures queue.Valid() && queue.active.threads == [] && queue.expired.threads == []
    ensures work == 0 && outcome == Done
    ensures |queue.active.groupWork| == NR_GROUPS
    ensures queue.active.work == queue.active.groupWork[p] == WORD16 && !queue.Exact()
  {
    hide FsRunq.Valid, FsRunq.Exact, Within, Without, Cut, Wrap;
    WeightFits(p, sliceBase);
    var first;
    queue, first := RunAlone(p, sliceBase, lp64);
    TickTimes(queue, first, WORD16 - 1);
    AloneQueue(queue.active, first);
    CutFits(0);
    WrapFits(WORD16);
    queue.Tick();
    work := first.work;
    assert work == 0 < first.weight;
    assert queue.active.work == queue.active.groupWork[p] == WORD16;
    var wakeBalancer;
    outcome, wakeBalancer := queue.PutPrev();
    WithoutHead([first]);
    assert first.fsRunq == queue.active;
    NotQueued(queue.expired, null, first);
    wakeBalancer := queue.Remove(first);
  }

  /** A processor that runs its only thread, in round 1. */
  method RunAlone(p: nat, sliceBase: nat, lp64: bool) returns (queue: Runq, first: Thread)
    requires p < NR_GROUPS && 10 <= sliceBase <= 100
    ensures fresh(queue) && fresh(queue.active) && fresh(queue.expired) && fresh(first)
    ensures queue.Valid() && queue.Exact() && queue.running == first && queue.active.threads == [first]
    ensures queue.expired.threads == [] && queue.fsWeight == first.weight && queue.fsRound == 1 && queue.lp64 == lp64
    ensures first.work == 0 && first.weight == Prio2Weight(p, sliceBase) && first.priority == p
  {
    hide FsRunq.Valid, FsRunq.Exact, Share, Fair, Pushed, Within, Without, Charged, Cut, Calm;
    WeightFits(p, sliceBase);
    CutFits(0);
    queue := new Runq(lp64);
    first := new Thread(p, sliceBase);
    var outcome := queue.Add(first, 1);
    var next := queue.GetNext();
    OnlyThread(queue, first);
  }

  /** The running thread gets ticks that do not wrap its work. */
  method TickTimes(queue: Runq, first: Thread, n: nat)
    requires queue.Valid() && queue.Exact() && queue.running == first && first.work + n < WORD16
    modifies queue`yieldFlag, queue.active`work, queue.active`groupWork, first`work
    ensures queue.Valid() && queue.Exact() && first.work == old(first.work) + n
  {
    hide FsRunq.Valid, FsRunq.Exact, Within, Wrap, Cut, Ticked;
    var ticks := 0;
    while ticks < n
      invariant queue.Valid() && queue.Exact() && ticks <= n && first.work == old(first.work) + ticks
    {
      CutFits(first.work + 1);
      queue.Tick();
      ticks := ticks + 1;
    }
  }

  /** An idle processor pulls a thread. */
  method PullAway(queue: Runq, t: Thread, lp64: bool) returns (outcome: Outcome)
    requires queue.Valid() && t in queue.active.threads && t != queue.running
    modifies t, queue, queue.active, queue.expired
    ensures outcome == if old(t.work) > old(t.weight) then AssertFailed else Done
  {
    hide FsRunq.Valid, Within, Without;
    var other := new Runq(lp64);
    outcome := other.Pull(queue, t, 1);
  }

  /** The thread picked in a queue with one thread is that thread. */
  lemma OnlyThread(queue: Runq, t: Thread)
    requires queue.Valid() && queue.active.threads == [t] && queue.running != null
    ensures queue.running == t
  {}

  /** The works of a queue with one thread. */
  lemma AloneQueue(q: FsRunq, t: Thread)
    requires q.Exact() && q.threads == [t]
    ensures |q.groupWeight| == |q.groupWork| == NR_GROUPS && t.priority < NR_GROUPS
    ensures q.work == q.groupWork[t.priority] == t.work
  {
    hide Wrap;
    AllDataIs(q.threads);
    assert AllData(q.threads) == [t.Data()];
    OneTotal(t.Data(), Work, ALL);
    OneTotal(t.Data(), Work, t.priority);
    ExactSums([t.Data()], q.Sums());
  }

  lemma OverchargedQueue(q: FsRunq, t: Thread, p: nat, weight: nat)
    requires q.Exact() && q.threads == [t] && p < NR_GROUPS && 0 < weight <= MAX_WEIGHT
    requires t.priority == p && t.weight == weight && t.work == weight + 1
    ensures |q.groupWeight| == |q.groupWork| == NR_GROUPS && Share(q.Sums(), p, weight) == weight + 1
  {
    hide Share, Wrap;
    AllDataIs(q.threads);
    assert AllData(q.threads) == [FsData(p, weight, weight + 1)];
    Overcharged(AllData(q.threads), q.Sums(), p, weight);
  }

  /** The running thread of one queue does not count in the other. */
  lemma WithinAny(q: FsRunq, other: FsRunq, running: Thread?)
    requires q.Valid(running) && other.Valid(running) && q != other && (running != null ==> running in q.threads)
    ensures Within(other.threads, running) <==> Within(other.threads, null)
  {}

  lemma SumsFit(q: FsRunq, running: Thread?)
    requires q.Valid(running)
    ensures |q.groupWeight| == |q.groupWork| == NR_GROUPS && q.current < NR_GROUPS
  {}

  lemma GroupsFit(q: FsRunq, running: Thread?)
    requires q.Valid(running)
    ensures |q.groupWeight| == NR_GROUPS && forall g :: g in q.groups ==> g < NR_GROUPS
  {}

  lemma ChargeOfNone(t: Totals, p: nat, weight: nat, lp64: bool)
    requires p < |t.groupWeight| == |t.groupWork|
    ensures t.weight == 0 ==> Charged(t, p, weight, lp64) == 0
  {}
}
