// The page allocator of vm/vm_page.c: free blocks of pages in buddy lists, and per-processor pools of pages.

module VmPage {
  import opened Common

  /** VM_PAGE_NR_FREE_LISTS. */
  const NR_LISTS: nat := 11

  /** VM_PAGE_ORDER_UNLISTED. */
  const UNLISTED: nat := 0xffff

  // ---------------------------------------------------------------- blocks

  predicate Aligned(p: nat, k: nat) { p % Pow2(k) == 0 }

  predicate InBlock(q: nat, p: nat, k: nat) { p <= q < p + Pow2(k) }

  function Block(p: nat, k: nat): set<nat> { set q: nat | q < p + Pow2(k) && InBlock(q, p, k) }

  /** The address with bit k flipped. */
  function Buddy(p: nat, k: nat): nat
    requires Aligned(p, k)
  {
    if p / Pow2(k) % 2 == 0 then p + Pow2(k) else Below(p, k)
  }

  function Below(p: nat, k: nat): nat
    requires Aligned(p, k) && p / Pow2(k) % 2 != 0
  {
    OddAbove(p, k);
    p - Pow2(k)
  }

  /** The block of the next order that p is in: pa & -size. */
  function Parent(p: nat, k: nat): nat {
    Quotient(p, Pow2(k + 1));
    p - p % Pow2(k + 1)
  }

  lemma Quotient(a: nat, b: nat)
    requires b > 0
    ensures 0 <= a % b <= a && a % b < b
  {
    Divide(a, b);
    Product(b, a / b);
  }

  lemma Product(a: nat, b: nat)
    ensures a * b >= 0
  {}

  lemma Divide(a: nat, b: nat)
    requires b > 0
    ensures a == b * (a / b) + a % b && a % b < b
  {}

  lemma Multiple(b: nat, q: nat)
    requires b > 0
    ensures b * q >= 0 && (b * q) % b == 0 && (b * q) / b == q
  {
    var a := b * q;
    Divide(a, b);
    SameMultiple(b, a / b - q, a % b);
  }

  lemma SameMultiple(b: nat, d: int, r: nat)
    requires b > 0 && b * d + r == 0 && r < b
    ensures d == 0 && r == 0
  {
    if d >= 1 { MulAtLeast(b, d); }
    if d <= -1 { MulAtLeast(b, -d); }
  }

  lemma MulAtLeast(b: nat, d: int)
    requires b > 0
    ensures d >= 1 ==> b * d >= b
  {}

  lemma OddAbove(p: nat, k: nat)
    requires Aligned(p, k) && p / Pow2(k) % 2 != 0
    ensures p >= Pow2(k)
  {
    Divide(p, Pow2(k));
    MulAtLeast(Pow2(k), p / Pow2(k));
  }

  /** Distinct aligned addresses are at least a block apart. */
  lemma Apart(a: nat, b: nat, k: nat)
    requires Aligned(a, k) && Aligned(b, k) && a < b
    ensures a + Pow2(k) <= b
  {
    var s := Pow2(k);
    Divide(a, s);
    Divide(b, s);
    Spread(s, a / s, b / s);
  }

  lemma Spread(s: nat, x: nat, y: nat)
    requires s > 0 && s * x < s * y
    ensures s * x + s <= s * y
  {
    if x + 1 <= y { MulMono(s, x + 1, y); } else { MulMono(s, y, x); }
  }

  lemma MulMono(s: nat, x: nat, y: nat)
    requires x <= y
    ensures s * x <= s * y && s * (x + 1) == s * x + s
  {}

  /** An even multiple of a block is aligned on the next order; an odd one is a block above such an address. */
  lemma NextOrder(p: nat, k: nat)
    requires Aligned(p, k)
    ensures if p / Pow2(k) % 2 == 0 then Aligned(p, k + 1) else p >= Pow2(k) && Aligned(p - Pow2(k), k + 1)
    ensures p % Pow2(k + 1) == if p / Pow2(k) % 2 == 0 then 0 else Pow2(k)
  {
    var s := Pow2(k);
    Divide(p, s);
    var x := p / s;
    Halves(p, s, x);
  }

  lemma Halves(p: nat, s: nat, x: nat)
    requires s > 0 && p == s * x
    ensures if x % 2 == 0 then p % (2 * s) == 0 else p >= s && (p - s) % (2 * s) == 0 && p % (2 * s) == s
  {
    var h := x / 2;
    Twice(s, h);
    if x % 2 == 0 {
      Multiple(2 * s, h);
    } else {
      Multiple(2 * s, h);
      Remainder(2 * s, h, s);
    }
  }

  lemma Twice(s: nat, h: nat)
    ensures s * (2 * h) == (2 * s) * h && s * (2 * h + 1) == (2 * s) * h + s && (2 * s) * h >= 0
  {}

  lemma Remainder(b: nat, q: nat, r: nat)
    requires b > 0 && r < b
    ensures b * q + r >= 0 && (b * q + r) % b == r
  {
    var a := b * q + r;
    Divide(a, b);
    var d := a / b - q;
    assert b * d == r - a % b;
    RemainderSame(b, d, r, a % b);
  }

  lemma RemainderSame(b: nat, d: int, r: nat, t: nat)
    requires b > 0 && b * d == r - t && r < b && t < b
    ensures r == t
  {
    if d >= 1 { MulAtLeast(b, d); }
    if d <= -1 { MulAtLeast(b, -d); }
  }

  lemma {:induction false} AlignedDown(p: nat, k: nat, j: nat)
    requires k <= j && Aligned(p, j)
    ensures Aligned(p, k)
  {
    if k < j {
      var s := Pow2(j - 1);
      Divide(p, 2 * s);
      var q := p / (2 * s);
      assert p == s * (2 * q);
      Multiple(s, 2 * q);
      AlignedDown(p, k, j - 1);
    }
  }

  lemma {:induction false} Pow2Mono(k: nat, j: nat)
    requires k <= j
    ensures Pow2(k) <= Pow2(j)
  {
    if k < j { Pow2Mono(k, j - 1); }
  }

  // ---------------------------------------------------------------- free blocks

  /** The block of order k at p is aligned, and all its pages are free. */
  ghost predicate Whole(f: set<nat>, p: nat, k: nat) {
    Aligned(p, k) && forall q | InBlock(q, p, k) :: q in f
  }

  /** A free block that is not part of a greater one. */
  ghost predicate Canon(f: set<nat>, p: nat, k: nat) {
    k < NR_LISTS && Whole(f, p, k) && (k == NR_LISTS - 1 || !Whole(f, Parent(p, k), k + 1))
  }

  /** The lists hold the greatest free blocks, and nothing else: they only depend on which pages are free. */
  ghost predicate Coalesced(listed: map<nat, nat>, f: set<nat>) {
    forall p: nat, k: nat :: (p in listed && listed[p] == k) <==> Canon(f, p, k)
  }

  lemma ParentIs(p: nat, k: nat)
    requires Aligned(p, k)
    ensures Aligned(Parent(p, k), k + 1) && Aligned(Buddy(p, k), k)
    ensures (Parent(p, k) == p && Buddy(p, k) == p + Pow2(k)) || (Parent(p, k) + Pow2(k) == p && Buddy(p, k) == Parent(p, k))
  {
    NextOrder(p, k);
    Divide(p, Pow2(k));
    if p / Pow2(k) % 2 == 0 {
      Twice(Pow2(k), 0);
      NextMultiple(p, Pow2(k));
    } else {
      AlignedDown(p - Pow2(k), k, k + 1);
    }
  }

  lemma NextMultiple(p: nat, s: nat)
    requires s > 0 && p % s == 0
    ensures (p + s) % s == 0
  {
    Divide(p, s);
    MulMono(s, p / s, p / s);
    Multiple(s, p / s + 1);
  }

  /** A block and its buddy make their parent. */
  lemma Halved(p: nat, k: nat, q: nat)
    requires Aligned(p, k)
    ensures InBlock(q, Parent(p, k), k + 1) <==> InBlock(q, p, k) || InBlock(q, Buddy(p, k), k)
    ensures !(InBlock(q, p, k) && InBlock(q, Buddy(p, k), k))
  {
    ParentIs(p, k);
  }

  /** Two blocks are disjoint, or one contains the other. */
  lemma Nested(p: nat, k: nat, b: nat, j: nat, x: nat)
    requires Aligned(p, k) && Aligned(b, j) && k <= j && InBlock(x, p, k) && InBlock(x, b, j)
    ensures b <= p && p + Pow2(k) <= b + Pow2(j)
  {
    AlignedDown(b, k, j);
    Pow2Mono(k, j);
    if p < b { Apart(p, b, k); }
    NextMultiple(b, Pow2(j));
    AlignedDown(b + Pow2(j), k, j);
    if p < b + Pow2(j) { Apart(p, b + Pow2(j), k); }
  }

  ghost predicate Disjoint(p: nat, k: nat, b: nat, j: nat) { forall q | InBlock(q, p, k) :: !InBlock(q, b, j) }

  lemma WholeDisjoint(f: set<nat>, b: nat, j: nat, p: nat, k: nat)
    requires Disjoint(p, k, b, j)
    ensures Whole(f + Block(b, j), p, k) <==> Whole(f, p, k)
  {}

  /** What is needed to give block b of order j to the free pages f as it is. */
  ghost predicate Addable(f: set<nat>, b: nat, j: nat) {
    && Aligned(b, j) && j < NR_LISTS && (forall q | InBlock(q, b, j) :: q !in f)
    && (j == NR_LISTS - 1 || !Whole(f, Buddy(b, j), j))
  }

  /** No greater block than the one added has become free. */
  lemma NotGreater(f: set<nat>, b: nat, j: nat, p: nat, k: nat)
    requires Addable(f, b, j) && j < k < NR_LISTS && Aligned(p, k) && !Disjoint(p, k, b, j)
    ensures !Whole(f + Block(b, j), p, k) && !Whole(f, p, k)
  {
    var x :| InBlock(x, p, k) && InBlock(x, b, j);
    ParentIs(b, j);
    Halved(b, j, x);
    Nested(Parent(b, j), j + 1, p, k, x);
    var q :| InBlock(q, Buddy(b, j), j) && q !in f;
    Halved(b, j, q);
    assert InBlock(q, p, k) && q !in f + Block(b, j);
  }

  lemma AddedDisjoint(f: set<nat>, b: nat, j: nat, p: nat, k: nat)
    requires Addable(f, b, j) && k < NR_LISTS && Aligned(p, k) && Disjoint(p, k, b, j)
    ensures Canon(f + Block(b, j), p, k) <==> Canon(f, p, k)
  {
    WholeDisjoint(f, b, j, p, k);
    if k < NR_LISTS - 1 {
      ParentIs(p, k);
      var q := Parent(p, k);
      if Disjoint(q, k + 1, b, j) {
        WholeDisjoint(f, b, j, q, k + 1);
      } else {
        ParentGreater(p, k, b, j);
        NotGreater(f, b, j, q, k + 1);
      }
    }
  }

  /** A block that meets the parent of p but not p is smaller than the parent. */
  lemma ParentGreater(p: nat, k: nat, b: nat, j: nat)
    requires Aligned(p, k) && Aligned(b, j) && Disjoint(p, k, b, j) && !Disjoint(Parent(p, k), k + 1, b, j)
    ensures j < k + 1
  {
    ParentIs(p, k);
    var x :| InBlock(x, Parent(p, k), k + 1) && InBlock(x, b, j);
    if k + 1 <= j {
      Nested(Parent(p, k), k + 1, b, j, x);
      assert InBlock(p, p, k) && InBlock(p, b, j);
    }
  }

  lemma AddedInside(f: set<nat>, b: nat, j: nat, p: nat, k: nat)
    requires Addable(f, b, j) && k <= j && Aligned(p, k) && !Disjoint(p, k, b, j)
    ensures !Canon(f, p, k) && (Canon(f + Block(b, j), p, k) <==> p == b && k == j)
  {
    var x :| InBlock(x, p, k) && InBlock(x, b, j);
    Nested(p, k, b, j, x);
    var g := f + Block(b, j);
    assert forall q | InBlock(q, p, k) :: InBlock(q, b, j);
    assert Whole(g, p, k) && x !in f;
    ParentIs(p, k);
    Halved(p, k, x);
    if k < j {
      Nested(Parent(p, k), k + 1, b, j, x);
      assert forall q | InBlock(q, Parent(p, k), k + 1) :: InBlock(q, b, j);
    } else if j < NR_LISTS - 1 {
      assert p == b;
      assert InBlock(b, b, j);
      Halved(b, j, b);
      NotGreater(f, b, j, Parent(p, k), k + 1);
    }
  }

  /** Adding a block whose buddy is not free adds that block to the lists, and changes nothing else. */
  lemma AddBlock(f: set<nat>, b: nat, j: nat, p: nat, k: nat)
    requires Addable(f, b, j)
    ensures Canon(f + Block(b, j), p, k) <==> Canon(f, p, k) || (p == b && k == j)
  {
    if k < NR_LISTS && Aligned(p, k) {
      if Disjoint(p, k, b, j) {
        AddedDisjoint(f, b, j, p, k);
        assert p == b && k == j ==> InBlock(b, p, k) && InBlock(b, b, j);
      } else if k <= j {
        AddedInside(f, b, j, p, k);
      } else {
        NotGreater(f, b, j, p, k);
      }
    }
  }

  lemma ListAdd(listed: map<nat, nat>, f: set<nat>, b: nat, j: nat)
    requires Coalesced(listed, f) && Addable(f, b, j)
    ensures b !in listed && Coalesced(listed[b := j], f + Block(b, j))
  {
    assert InBlock(b, b, j);
    if b in listed {
      assert Canon(f, b, listed[b]);
      assert InBlock(b, b, listed[b]);
    }
    var l' := listed[b := j];
    forall p: nat, k: nat ensures (p in l' && l'[p] == k) <==> Canon(f + Block(b, j), p, k) {
      AddBlock(f, b, j, p, k);
      assert (p in listed && listed[p] == k) <==> Canon(f, p, k);
    }
  }

  lemma ListedAddable(listed: map<nat, nat>, f: set<nat>, b: nat)
    requires Coalesced(listed, f) && b in listed
    ensures Canon(f, b, listed[b]) && Block(b, listed[b]) <= f
    ensures Addable(f - Block(b, listed[b]), b, listed[b])
  {
    var j := listed[b];
    assert Canon(f, b, j);
    var f0 := f - Block(b, j);
    if j < NR_LISTS - 1 && Whole(f0, Buddy(b, j), j) {
      ParentIs(b, j);
      forall q | InBlock(q, Parent(b, j), j + 1) ensures q in f { Halved(b, j, q); }
    }
  }

  lemma ListRemove(listed: map<nat, nat>, f: set<nat>, b: nat)
    requires Coalesced(listed, f) && b in listed
    ensures Coalesced(listed - {b}, f - Block(b, listed[b]))
  {
    var j := listed[b];
    ListedAddable(listed, f, b);
    var f0, l' := f - Block(b, j), listed - {b};
    assert f0 + Block(b, j) == f;
    assert InBlock(b, b, j);
    forall p: nat, k: nat ensures (p in l' && l'[p] == k) <==> Canon(f0, p, k) {
      AddBlock(f0, b, j, p, k);
      assert (p in listed && listed[p] == k) <==> Canon(f, p, k);
      assert InBlock(p, p, k);
    }
  }

  /** A free block is part of a listed one. */
  lemma {:induction false} WholeListed(listed: map<nat, nat>, f: set<nat>, p: nat, k: nat) returns (q: nat)
    requires Coalesced(listed, f) && k < NR_LISTS && Whole(f, p, k)
    ensures q in listed && k <= listed[q] < NR_LISTS
    ensures forall x | InBlock(x, p, k) :: InBlock(x, q, listed[q])
    decreases NR_LISTS - k
  {
    if Canon(f, p, k) {
      q := p;
    } else {
      ParentIs(p, k);
      q := WholeListed(listed, f, Parent(p, k), k + 1);
      forall x | InBlock(x, p, k) ensures InBlock(x, q, listed[q]) { Halved(p, k, x); }
    }
  }

  /** A block within a listed one is free. */
  lemma ListedWhole(listed: map<nat, nat>, f: set<nat>, q: nat, k: nat)
    requires Coalesced(listed, f) && q in listed && k <= listed[q]
    ensures Whole(f, q, k)
  {
    assert Canon(f, q, listed[q]);
    AlignedDown(q, k, listed[q]);
    Pow2Mono(k, listed[q]);
    forall x | InBlock(x, q, k) ensures x in f { assert InBlock(x, q, listed[q]); }
  }

  /** The lists only depend on the set of free pages. */
  lemma SameLists(l1: map<nat, nat>, l2: map<nat, nat>, f: set<nat>)
    requires Coalesced(l1, f) && Coalesced(l2, f)
    ensures l1 == l2
  {
    forall p ensures (p in l1 <==> p in l2) && (p in l1 ==> l1[p] == l2[p]) {
      if p in l1 { assert Canon(f, p, l1[p]); }
      if p in l2 { assert Canon(f, p, l2[p]); }
    }
  }

  /** The listed blocks are disjoint, and cover the free pages. */
  lemma Partition(listed: map<nat, nat>, f: set<nat>)
    requires Coalesced(listed, f)
    ensures forall p, q | p in listed && q in listed && p != q :: Disjoint(p, listed[p], q, listed[q])
    ensures forall x :: x in f <==> exists p | p in listed :: InBlock(x, p, listed[p])
  {
    forall p, q | p in listed && q in listed && p != q ensures Disjoint(p, listed[p], q, listed[q]) {
      ListRemove(listed, f, p);
      ListedAddable(listed - {p}, f - Block(p, listed[p]), q);
    }
    forall x ensures x in f <==> exists p | p in listed :: InBlock(x, p, listed[p]) {
      if x in f {
        assert Whole(f, x, 0);
        var q := WholeListed(listed, f, x, 0);
        assert InBlock(x, x, 0);
      }
      if exists p | p in listed :: InBlock(x, p, listed[p]) {
        var p :| p in listed && InBlock(x, p, listed[p]);
        assert Canon(f, p, listed[p]);
      }
    }
  }

  /** The pages of the listed blocks. */
  ghost function Total(listed: map<nat, nat>): nat
    decreases |listed|
  {
    if listed == map[] then 0
    else
      var p :| p in listed;
      Pow2(listed[p]) + Total(listed - {p})
  }

  lemma {:induction false} BlockSize(p: nat, n: nat, s: set<nat>)
    requires forall q :: q in s <==> p <= q < p + n
    ensures |s| == n
  {
    if n == 0 {
      assert s == {};
    } else {
      BlockSize(p, n - 1, s - {p + n - 1});
    }
  }

  lemma BlockCard(p: nat, k: nat)
    ensures |Block(p, k)| == Pow2(k)
  {
    forall q: nat ensures q in Block(p, k) <==> p <= q < p + Pow2(k) { assert InBlock(q, p, k) <==> p <= q < p + Pow2(k); }
    BlockSize(p, Pow2(k), Block(p, k));
  }

  /** The listed blocks have as many pages as are free. */
  lemma {:induction false} TotalFree(listed: map<nat, nat>, f: set<nat>)
    requires Coalesced(listed, f)
    ensures Total(listed) == |f|
    decreases |listed|
  {
    if listed == map[] {
      Partition(listed, f);
      assert f == {};
    } else {
      var p :| p in listed && Total(listed) == Pow2(listed[p]) + Total(listed - {p});
      ListRemove(listed, f, p);
      ListedAddable(listed, f, p);
      TotalFree(listed - {p}, f - Block(p, listed[p]));
      BlockCard(p, listed[p]);
      assert f == (f - Block(p, listed[p])) + Block(p, listed[p]);
    }
  }

  /** Half of a block that has left the lists goes back to them. */
  lemma SplitStep(f: set<nat>, p: nat, i: nat)
    requires Aligned(p, i + 1) && Block(p, i + 1) <= f && i + 1 < NR_LISTS
    ensures Aligned(p, i) && Addable(f - Block(p, i + 1), p + Pow2(i), i) && Block(p, i) <= f
    ensures (f - Block(p, i + 1)) + Block(p + Pow2(i), i) == f - Block(p, i)
    ensures Block(p + Pow2(i), i) <= f
  {
    AlignedDown(p, i, i + 1);
    NextMultiple(p, Pow2(i));
    ParentIs(p, i);
    NextOrder(p, i);
    var b := p + Pow2(i);
    ParentIs(b, i);
    if Parent(b, i) == b { Apart(p, b, i + 1); }
    forall q: nat ensures InBlock(q, p, i + 1) <==> InBlock(q, p, i) || InBlock(q, b, i) {}
    assert InBlock(p, p, i) && InBlock(p, Buddy(b, i), i);
  }

  /** A block and its free buddy become one block. */
  lemma MergeStep(f: set<nat>, p: nat, k: nat)
    requires Aligned(p, k) && Whole(f, Buddy(p, k), k) && forall q | InBlock(q, p, k) :: q !in f
    ensures Aligned(Parent(p, k), k + 1)
    ensures (f - Block(Buddy(p, k), k)) + Block(Parent(p, k), k + 1) == f + Block(p, k)
    ensures forall q | InBlock(q, Parent(p, k), k + 1) :: q !in f - Block(Buddy(p, k), k)
  {
    ParentIs(p, k);
    forall q: nat
      ensures InBlock(q, Parent(p, k), k + 1) <==> InBlock(q, p, k) || InBlock(q, Buddy(p, k), k)
    {
      Halved(p, k, q);
    }
  }

  /** A buddy that is not listed with the order of the block is not free as a whole. */
  lemma BuddyBusy(listed: map<nat, nat>, f: set<nat>, p: nat, k: nat)
    requires Coalesced(listed, f) && Aligned(p, k) && k + 1 < NR_LISTS && forall q | InBlock(q, p, k) :: q !in f
    requires !(Buddy(p, k) in listed && listed[Buddy(p, k)] == k)
    ensures Addable(f, p, k)
  {
    var b := Buddy(p, k);
    ParentIs(p, k);
    ParentIs(b, k);
    NextOrder(p, k);
    NextOrder(b, k);
    assert !Canon(f, b, k);
    assert InBlock(p, p, k);
    Halved(p, k, p);
    SameParent(p, k);
    assert !Whole(f, Parent(b, k), k + 1) by { assert InBlock(p, Parent(b, k), k + 1); }
  }

  lemma SameParent(p: nat, k: nat)
    requires Aligned(p, k) && Aligned(Buddy(p, k), k)
    ensures Parent(Buddy(p, k), k) == Parent(p, k)
  {
    var b := Buddy(p, k);
    ParentIs(p, k);
    ParentIs(b, k);
    NoneBetween(Parent(p, k), Parent(b, k), k + 1);
    NoneBetween(Parent(b, k), Parent(p, k), k + 1);
  }

  lemma NoneBetween(a: nat, b: nat, k: nat)
    requires Aligned(a, k) && Aligned(b, k)
    ensures a < b ==> a + Pow2(k) <= b
  {
    if a < b { Apart(a, b, k); }
  }

  lemma Carve(f: set<nat>, p: nat, k: nat)
    requires Block(p, k) <= f
    ensures |f| >= Pow2(k) && |f - Block(p, k)| == |f| - Pow2(k)
  {
    BlockCard(p, k);
    assert f == (f - Block(p, k)) + Block(p, k);
  }

  lemma Gain(f: set<nat>, p: nat, k: nat)
    requires forall q | InBlock(q, p, k) :: q !in f
    ensures |f + Block(p, k)| == |f| + Pow2(k)
  {
    BlockCard(p, k);
  }

  /** Freeing a block that has been allocated restores the lists, whatever order was asked for. */
  lemma FreeRestores(before: map<nat, nat>, after: map<nat, nat>, f: set<nat>, p: nat, k: nat)
    requires Coalesced(before, f) && Whole(f, p, k) && Coalesced(after, (f - Block(p, k)) + Block(p, k))
    ensures after == before
  {
    assert (f - Block(p, k)) + Block(p, k) == f;
    SameLists(before, after, f);
  }

  // ---------------------------------------------------------------- zones

  datatype FreeList = FreeList(size: nat, blocks: seq<nat>)

  function WithoutFirst(s: seq<nat>, p: nat): seq<nat> {
    if s == [] then [] else if s[0] == p then s[1..] else [s[0]] + WithoutFirst(s[1..], p)
  }

  lemma {:induction false} WithoutFirstMembers(s: seq<nat>, p: nat)
    requires NoDup(s) && p in s
    ensures |WithoutFirst(s, p)| == |s| - 1 && NoDup(WithoutFirst(s, p))
    ensures forall q :: q in WithoutFirst(s, p) <==> q in s && q != p
  {
    if s[0] != p {
      var t := s[1..];
      assert p in t;
      WithoutFirstMembers(t, p);
      assert s[0] !in t;
    } else {
      assert s[0] !in s[1..];
    }
  }

  /** A zone of pages; addresses are counted in pages. */
  class Zone {
    const start: nat
    const end: nat
    /** The order of each page of the zone. */
    const orders: array<nat>
    const lists: array<FreeList>
    var nrFree: nat
    /** The blocks in the lists, with their orders. */
    ghost var listed: map<nat, nat>
    ghost var free: set<nat>

    ghost predicate InZone(p: nat) { start <= p < end }

    /** The lists and the orders of pages agree. */
    ghost predicate Linked()
      reads this`listed, orders, lists
    {
      && start <= end && orders.Length == end - start && lists.Length == NR_LISTS
      && (forall p | p in listed :: InZone(p) && listed[p] < NR_LISTS)
      && (forall p | start <= p < end :: orders[p - start] == if p in listed then listed[p] else UNLISTED)
      && (forall k | 0 <= k < NR_LISTS :: lists[k].size == |lists[k].blocks| && NoDup(lists[k].blocks))
      && (forall k, p | 0 <= k < NR_LISTS :: p in lists[k].blocks <==> p in listed && listed[p] == k)
    }

    ghost predicate Valid()
      reads this, orders, lists
    {
      Linked() && Coalesced(listed, free) && (forall p | p in free :: InZone(p)) && nrFree == |free|
    }

    /** vm_page_zone_init, before any page is freed. */
    constructor (s: nat, e: nat)
      requires s <= e
      ensures Valid() && start == s && end == e && free == {} && fresh(orders) && fresh(lists)
    {
      start, end := s, e;
      orders := new nat[e - s](_ => UNLISTED);
      lists := new FreeList[NR_LISTS](_ => FreeList(0, []));
      nrFree, listed, free := 0, map[], {};
      new;
      forall p: nat, k: nat ensures !Canon({}, p, k) { assert InBlock(p, p, k); }
    }

    /** vm_page_free_list_insert, and the order of the page. */
    method ListBlock(page: nat, k: nat)
      requires Linked() && InZone(page) && page !in listed && k < NR_LISTS
      modifies this`listed, orders, lists
      ensures Linked() && listed == old(listed)[page := k]
    {
      assert orders[page - start] == UNLISTED;
      lists[k] := FreeList(lists[k].size + 1, [page] + lists[k].blocks);
      orders[page - start] := k;
      listed := listed[page := k];
    }

    /** vm_page_free_list_remove, and the order of the page. */
    method UnlistBlock(page: nat, k: nat)
      requires Linked() && page in listed && listed[page] == k
      modifies this`listed, orders, lists
      ensures Linked() && listed == old(listed) - {page}
    {
      assert orders[page - start] != UNLISTED;
      WithoutFirstMembers(lists[k].blocks, page);
      lists[k] := FreeList(lists[k].size - 1, WithoutFirst(lists[k].blocks, page));
      orders[page - start] := UNLISTED;
      listed := listed - {page};
    }

    /** The first list with a block, from an order on. */
    method FirstList(order: nat) returns (i: nat)
      requires Valid() && order < NR_LISTS
      ensures order <= i <= NR_LISTS
      ensures i < NR_LISTS ==> lists[i].blocks != []
      ensures i == NR_LISTS ==> forall p | p in listed :: listed[p] < order
    {
      i := order;
      while i < NR_LISTS
        invariant order <= i <= NR_LISTS && forall p | p in listed :: !(order <= listed[p] < i)
      {
        if lists[i].size != 0 {
          return;
        }
        assert lists[i].blocks == [];
        i := i + 1;
      }
    }

    /** The halves that are not needed go back to the lists. */
    method Split(page: nat, from: nat, order: nat)
      requires Linked() && order <= from < NR_LISTS && Aligned(page, from) && Block(page, from) <= free
      requires Coalesced(listed, free - Block(page, from)) && forall p | p in free :: InZone(p)
      modifies this`listed, orders, lists
      ensures Linked() && Aligned(page, order) && Coalesced(listed, free - Block(page, order)) && Block(page, order) <= free
    {
      hide Coalesced, Aligned, Addable;
      var i := from;
      while i > order
        invariant Linked() && order <= i <= from && Aligned(page, i) && Block(page, i) <= free
        invariant Coalesced(listed, free - Block(page, i))
      {
        i := i - 1;
        var buddy := page + Pow2(i);
        SplitStep(free, page, i);
        ListAdd(listed, free - Block(page, i + 1), buddy, i);
        assert InBlock(buddy, buddy, i) && buddy in Block(buddy, i);
        ListBlock(buddy, i);
      }
    }

    /** vm_page_zone_alloc_from_buddy. */
    method AllocFromBuddy(order: nat) returns (page: Option<nat>)
      requires Valid() && order < NR_LISTS
      modifies this`listed, this`free, this`nrFree, orders, lists
      ensures Valid()
      ensures page.None? ==> free == old(free) && forall p: nat :: !Whole(free, p, order)
      ensures page.Some? ==> Whole(old(free), page.value, order) && free == old(free) - Block(page.value, order)
    {
      hide Coalesced, Aligned, Whole, Canon, Addable, InBlock;
      var i := FirstList(order);
      if i == NR_LISTS {
        NothingFree(order);
        return None;
      }
      var p := lists[i].blocks[0];
      assert p in lists[i].blocks;
      TakeListed(listed, free, p, order);
      UnlistBlock(p, i);
      Split(p, i, order);
      Carve(free, p, order);
      nrFree := nrFree - Pow2(order);
      free := free - Block(p, order);
      StillInZone(old(free), free);
      page := Some(p);
    }

    lemma StillInZone(f: set<nat>, g: set<nat>)
      requires g <= f && forall p | p in f :: InZone(p)
      ensures forall p | p in g :: InZone(p)
    {}

    lemma NothingFree(order: nat)
      requires Coalesced(listed, free) && order < NR_LISTS && forall p | p in listed :: listed[p] < order
      ensures forall p: nat :: !Whole(free, p, order)
    {
      forall p: nat ensures !Whole(free, p, order) {
        if Whole(free, p, order) { var q := WholeListed(listed, free, p, order); }
      }
    }

    lemma TakeListed(l: map<nat, nat>, f: set<nat>, p: nat, order: nat)
      requires Coalesced(l, f) && p in l && order <= l[p]
      ensures Whole(f, p, order) && Aligned(p, l[p]) && Block(p, l[p]) <= f && Coalesced(l - {p}, f - Block(p, l[p]))
    {
      ListedWhole(l, f, p, order);
      ListRemove(l, f, p);
      ListedAddable(l, f, p);
    }

    /** vm_page_zone_free_to_buddy. */
    method FreeToBuddy(page: nat, order: nat)
      requires Valid() && order < NR_LISTS && Aligned(page, order)
      requires forall q | InBlock(q, page, order) :: InZone(q) && q !in free
      modifies this`listed, this`free, this`nrFree, orders, lists
      ensures Valid() && free == old(free) + Block(page, order)
    {
      hide Coalesced, Aligned, Whole, Canon, Addable, Parent, Buddy, FreeRange, Block, Linked;
      var pa: nat, k: nat := page, order;
      ghost var f := free;
      FreeRangeStart(f, page, order);
      while k < NR_LISTS - 1
        invariant Linked() && Coalesced(listed, f) && k < NR_LISTS && Aligned(pa, k) && FreeRange(f, pa, k)
        invariant f + Block(pa, k) == free + Block(page, order) && free == old(free) && nrFree == old(nrFree)
      {
        var buddy := Buddy(pa, k);
        var whole := HasOrder(buddy, k);
        if !whole {
          NoBuddy(f, pa, k);
          break;
        }
        MergeBlocks(pa, k, f);
        UnlistBlock(buddy, k);
        f := f - Block(buddy, k);
        pa := Parent(pa, k);
        k := k + 1;
      }
      LastAddable(f, pa, k);
      ListAdd(listed, f, pa, k);
      ListBlock(pa, k);
      GainHere(free, page, order);
      nrFree := nrFree + Pow2(order);
      free := free + Block(page, order);
      GainInZone(old(free), page, order);
    }

    /** Freeing a block just allocated restores the lists and the orders, whatever blocks were split. */
    method AllocThenFree(order: nat) returns (page: Option<nat>)
      requires Valid() && order < NR_LISTS
      modifies this`listed, this`free, this`nrFree, orders, lists
      ensures Valid() && listed == old(listed) && free == old(free) && nrFree == old(nrFree)
      ensures orders[..] == old(orders[..])
    {
      hide Coalesced, Canon, Whole, Linked;
      ghost var l, f := listed, free;
      LinkedIs();
      page := AllocFromBuddy(order);
      if page.Some? {
        WholeBlock(f, page.value, order);
        FreeToBuddy(page.value, order);
        assert free == (f - Block(page.value, order)) + Block(page.value, order);
        FreeRestores(l, listed, f, page.value, order);
      } else {
        SameLists(l, listed, f);
      }
      LinkedIs();
    }

    lemma WholeBlock(f: set<nat>, p: nat, k: nat)
      requires Whole(f, p, k)
      ensures Aligned(p, k) && Block(p, k) <= f && forall q | InBlock(q, p, k) :: q in f && q in Block(p, k)
    {}

    /** The orders are those of the listed blocks. */
    lemma LinkedIs()
      requires Linked()
      ensures orders[..] == OrdersOf(listed)
    {
      assert forall i | 0 <= i < end - start :: orders[i] == orders[(start + i) - start];
    }

    ghost function OrdersOf(l: map<nat, nat>): seq<nat>
      requires start <= end
    {
      seq(end - start, i requires 0 <= i < end - start => if start + i in l then l[start + i] else UNLISTED)
    }

    /** Whether a page of the zone is the first one of a listed block of order k. */
    method HasOrder(page: nat, k: nat) returns (b: bool)
      requires Linked() && k < NR_LISTS
      ensures b <==> page in listed && listed[page] == k
    {
      b := false;
      if page < start || page >= end {
        return;
      }
      b := orders[page - start] == k;
    }

    lemma GainHere(f: set<nat>, p: nat, k: nat)
      requires FreeRange(f, p, k)
      ensures |f + Block(p, k)| == |f| + Pow2(k)
    {
      Gain(f, p, k);
    }

    /** The pages of a block are in the zone and not free; the free ones are in the zone. */
    ghost predicate FreeRange(f: set<nat>, p: nat, k: nat) {
      (forall q | InBlock(q, p, k) :: InZone(q) && q !in f) && forall q | q in f :: InZone(q)
    }

    lemma FreeRangeStart(f: set<nat>, p: nat, k: nat)
      requires forall q | InBlock(q, p, k) :: InZone(q) && q !in f
      requires forall q | q in f :: InZone(q)
      ensures FreeRange(f, p, k)
    {}

    lemma GainInZone(f: set<nat>, p: nat, k: nat)
      requires FreeRange(f, p, k)
      ensures forall q | q in f + Block(p, k) :: InZone(q)
    {}

    lemma NoBuddy(f: set<nat>, p: nat, k: nat)
      requires Linked() && Coalesced(listed, f) && k + 1 < NR_LISTS && Aligned(p, k) && FreeRange(f, p, k)
      requires !(Buddy(p, k) in listed && listed[Buddy(p, k)] == k)
      ensures Addable(f, p, k)
    {
      BuddyBusy(listed, f, p, k);
    }

    lemma LastAddable(f: set<nat>, p: nat, k: nat)
      requires k < NR_LISTS && Aligned(p, k) && FreeRange(f, p, k) && (k == NR_LISTS - 1 || Addable(f, p, k))
      ensures Addable(f, p, k) && InZone(p)
    {
      assert InBlock(p, p, k);
    }

    lemma MergeBlocks(pa: nat, k: nat, f: set<nat>)
      requires Linked() && Coalesced(listed, f) && k + 1 < NR_LISTS && Aligned(pa, k) && FreeRange(f, pa, k)
      requires Buddy(pa, k) in listed && listed[Buddy(pa, k)] == k
      ensures Coalesced(listed - {Buddy(pa, k)}, f - Block(Buddy(pa, k), k)) && Aligned(Parent(pa, k), k + 1)
      ensures FreeRange(f - Block(Buddy(pa, k), k), Parent(pa, k), k + 1)
      ensures (f - Block(Buddy(pa, k), k)) + Block(Parent(pa, k), k + 1) == f + Block(pa, k)
    {
      var b := Buddy(pa, k);
      ListedWhole(listed, f, b, k);
      ListRemove(listed, f, b);
      MergeStep(f, pa, k);
      forall q | InBlock(q, Parent(pa, k), k + 1) ensures InZone(q) { Halved(pa, k, q); }
    }
  }

  // ---------------------------------------------------------------- processor pools

  /** VM_PAGE_FREE. */
  const FREE: nat := 0

  /** VM_PAGE_RESERVED. */
  const RESERVED: nat := 1

  /** vm_page_cpu_pool. */
  datatype Pool = Pool(size: nat, transferSize: nat, nrPages: nat, pages: seq<nat>)

  ghost predicate PoolWf(x: Pool) {
    x.nrPages == |x.pages| && x.nrPages <= x.size && 0 < x.transferSize <= x.size && NoDup(x.pages)
  }

  /** A zone with the types of its pages, and a pool of pages for each processor. */
  class PooledZone {
    const zone: Zone
    const types: array<nat>
    const pools: array<Pool>
    /** The pages in the pools, with their processors. */
    ghost var holder: map<nat, nat>

    ghost predicate Pooled()
      reads this, pools
    {
      && (forall c | 0 <= c < pools.Length :: PoolWf(pools[c]))
      && (forall p | p in holder :: holder[p] < pools.Length)
      && (forall c, p | 0 <= c < pools.Length :: p in pools[c].pages <==> p in holder && holder[p] == c)
    }

    /** Lists and pools are well formed, and no page is in both. */
    ghost predicate Core()
      reads this, zone, zone.orders, zone.lists, pools
    {
      zone.Valid() && Pooled() && forall p | p in holder :: zone.InZone(p) && p !in zone.free
    }

    /** The pages of type FREE are those of the lists and of the pools. */
    ghost predicate Typed()
      reads this, zone, types
    {
      && types.Length == zone.end - zone.start
      && forall i | 0 <= i < types.Length :: types[i] == FREE <==> zone.start + i in Avail()
    }

    ghost function Avail(): set<nat>
      reads this, zone
    {
      zone.free + holder.Keys
    }

    ghost predicate Valid()
      reads this, zone, zone.orders, zone.lists, types, pools
    {
      Core() && Typed() && types != zone.orders
    }

    /** vm_page_zone_compute_pool_size. */
    static function PoolSize(nrPages: nat): nat {
      if nrPages / 1024 == 0 then 1 else if nrPages / 1024 > 128 then 128 else nrPages / 1024
    }

    /** vm_page_zone_init. */
    constructor (start: nat, end: nat, nrCpus: nat)
      requires start <= end
      ensures Valid() && Avail() == {} && zone.start == start && zone.end == end && pools.Length == nrCpus
      ensures fresh(zone) && fresh(zone.orders) && fresh(zone.lists) && fresh(types) && fresh(pools)
    {
      zone := new Zone(start, end);
      types := new nat[end - start](_ => RESERVED);
      pools := new Pool[nrCpus](_ => Pool(PoolSize(end - start), (PoolSize(end - start) + 1) / 2, 0, []));
      holder := map[];
    }

    /** vm_page_manage. */
    method Manage(page: nat)
      requires Valid() && zone.InZone(page) && types[page - zone.start] == RESERVED
      modifies zone`listed, zone`free, zone`nrFree, zone.orders, zone.lists, types
      ensures Valid() && Avail() == old(Avail()) + {page}
    {
      hide Zone.Valid, Whole, Block, PoolWf, NoDup, Pooled;
      OnePage(zone.free, page);
      FreeInZone();
      assert page !in Avail();
      types[page - zone.start] := FREE;
      zone.FreeToBuddy(page, 0);
    }

    /** vm_page_cpu_pool_push. */
    method Push(cpu: nat, page: nat)
      requires Pooled() && cpu < pools.Length && page !in holder && pools[cpu].nrPages < pools[cpu].size
      modifies this`holder, pools
      ensures Pooled() && holder == old(holder)[page := cpu]
      ensures pools[cpu] == old(pools[cpu]).(nrPages := old(pools[cpu]).nrPages + 1, pages := [page] + old(pools[cpu]).pages)
      ensures forall c | 0 <= c < pools.Length && c != cpu :: pools[c] == old(pools[c])
    {
      var x := pools[cpu];
      pools[cpu] := x.(nrPages := x.nrPages + 1, pages := [page] + x.pages);
      holder := holder[page := cpu];
    }

    /** vm_page_cpu_pool_pop. */
    method Pop(cpu: nat) returns (page: nat)
      requires Pooled() && cpu < pools.Length && pools[cpu].nrPages != 0
      modifies this`holder, pools
      ensures Pooled() && page in old(holder) && old(holder)[page] == cpu && holder == old(holder) - {page}
      ensures pools[cpu] == old(pools[cpu]).(nrPages := old(pools[cpu]).nrPages - 1, pages := old(pools[cpu]).pages[1..])
      ensures forall c | 0 <= c < pools.Length && c != cpu :: pools[c] == old(pools[c])
    {
      var x := pools[cpu];
      page := x.pages[0];
      assert page in x.pages && page !in x.pages[1..];
      pools[cpu] := x.(nrPages := x.nrPages - 1, pages := x.pages[1..]);
      holder := holder - {page};
    }

    /** A page goes from the lists to a pool. */
    method FillOne(cpu: nat) returns (ok: bool)
      requires Core() && cpu < pools.Length && pools[cpu].nrPages < pools[cpu].size
      modifies this`holder, pools, zone`listed, zone`free, zone`nrFree, zone.orders, zone.lists
      ensures Core() && Avail() == old(Avail())
      ensures if ok then pools[cpu].nrPages == old(pools[cpu]).nrPages + 1 else old(zone.free) == {} && pools[cpu] == old(pools[cpu])
      ensures pools[cpu].size == old(pools[cpu]).size
    {
      hide Zone.Valid, Whole, Block, Aligned, PoolWf, NoDup, Pooled;
      ghost var f := zone.free;
      FreeInZone();
      var page := zone.AllocFromBuddy(0);
      if page == None {
        NoPage(f);
        assert Avail() == old(Avail());
        return false;
      }
      OnePage(f, page.value);
      Push(cpu, page.value);
      ok := true;
    }

    /** vm_page_cpu_pool_fill. */
    method Fill(cpu: nat) returns (n: nat)
      requires Core() && cpu < pools.Length && pools[cpu].nrPages == 0
      modifies this`holder, pools, zone`listed, zone`free, zone`nrFree, zone.orders, zone.lists
      ensures Core() && Avail() == old(Avail()) && pools[cpu].nrPages == n
      ensures n == 0 ==> old(zone.free) == {}
    {
      hide Zone.Valid, Core, Avail;
      n := 0;
      PoolSizes(cpu);
      var transferSize := pools[cpu].transferSize;
      while n < transferSize
        invariant Core() && Avail() == old(Avail()) && pools[cpu].nrPages == n <= transferSize <= pools[cpu].size
        invariant n == 0 ==> zone.free == old(zone.free)
      {
        var ok := FillOne(cpu);
        if !ok {
          break;
        }
        n := n + 1;
      }
    }

    lemma PoolSizes(cpu: nat)
      requires Core() && cpu < pools.Length
      ensures 0 < pools[cpu].transferSize <= pools[cpu].size && pools[cpu].nrPages <= pools[cpu].size
    {
      assert PoolWf(pools[cpu]);
    }

    lemma FreeInZone()
      requires zone.Valid()
      ensures forall p | p in zone.free :: zone.InZone(p)
      ensures zone.start <= zone.end
    {}

    lemma NoPage(f: set<nat>)
      requires forall p: nat :: !Whole(f, p, 0)
      ensures f == {}
    {
      if p :| p in f { assert Whole(f, p, 0); }
    }

    lemma OnePage(f: set<nat>, p: nat)
      ensures Block(p, 0) == {p} && (Whole(f, p, 0) <==> p in f) && Aligned(p, 0) && forall q | InBlock(q, p, 0) :: q == p
    {
      assert InBlock(p, p, 0);
    }

    /** A page goes from a pool to the lists. */
    method DrainOne(cpu: nat)
      requires Core() && cpu < pools.Length && pools[cpu].nrPages > 0
      modifies this`holder, pools, zone`listed, zone`free, zone`nrFree, zone.orders, zone.lists
      ensures Core() && Avail() == old(Avail())
      ensures pools[cpu].nrPages == old(pools[cpu]).nrPages - 1 && pools[cpu].size == old(pools[cpu]).size
    {
      hide Zone.Valid, Whole, Block, PoolWf, NoDup, Pooled;
      var page := Pop(cpu);
      OnePage(zone.free, page);
      zone.FreeToBuddy(page, 0);
      assert Avail() == old(Avail());
    }

    /** vm_page_cpu_pool_drain. */
    method Drain(cpu: nat)
      requires Core() && cpu < pools.Length && pools[cpu].nrPages == pools[cpu].size
      modifies this`holder, pools, zone`listed, zone`free, zone`nrFree, zone.orders, zone.lists
      ensures Core() && Avail() == old(Avail()) && pools[cpu].nrPages < pools[cpu].size
    {
      hide Zone.Valid, Core, Avail;
      PoolSizes(cpu);
      var i := pools[cpu].transferSize;
      ghost var n := i;
      while i > 0
        invariant Core() && Avail() == old(Avail()) && i <= n <= pools[cpu].size
        invariant pools[cpu].nrPages + n == pools[cpu].size + i
      {
        DrainOne(cpu);
        i := i - 1;
      }
    }

    /** vm_page_set_type. */
    method SetType(page: nat, order: nat, type_: nat)
      requires types.Length == zone.end - zone.start && zone.start <= page && page + Pow2(order) <= zone.end
      modifies types
      ensures forall k | 0 <= k < types.Length ::
        types[k] == if InBlock(zone.start + k, page, order) then type_ else old(types[k])
    {
      var i := 0;
      while i < Pow2(order)
        invariant i <= Pow2(order)
        invariant forall k | 0 <= k < types.Length ::
          types[k] == if page <= zone.start + k < page + i then type_ else old(types[k])
      {
        types[page + i - zone.start] := type_;
        i := i + 1;
      }
    }

    ghost predicate AllFree(page: nat, order: nat)
      reads types
    {
      && zone.start <= page && page + Pow2(order) <= zone.end
      && forall k | 0 <= k < types.Length && InBlock(zone.start + k, page, order) :: types[k] == FREE
    }

    /** vm_page_zone_alloc. */
    method Alloc(cpu: nat, order: nat, type_: nat) returns (page: Option<nat>)
      requires Valid() && cpu < pools.Length && order < NR_LISTS && type_ != FREE
      modifies this`holder, pools, zone`listed, zone`free, zone`nrFree, zone.orders, zone.lists, types
      ensures Valid()
      ensures page.None? ==>
        Avail() == old(Avail()) && if order == 0 then old(zone.free) == {} && old(pools[cpu]).nrPages == 0
                                   else forall p: nat :: !Whole(old(zone.free), p, order)
      ensures page.Some? ==>
        Aligned(page.value, order) && old(AllFree(page.value, order)) && Avail() == old(Avail()) - Block(page.value, order)
    {
      hide Zone.Valid, Valid, Core, Typed, Pending, Avail, AllFree, Whole;
      ValidParts();
      if order == 0 {
        page := AllocPage(cpu);
      } else {
        page := AllocBlock(order);
      }
      if page == None {
        return;
      }
      RetypeReady(page.value, order);
      ghost var ts := types[..];
      SetType(page.value, order, type_);
      Retyped(ts, page.value, order);
    }

    /** The pages of a block have left the lists and the pools, but they are still of type FREE. */
    ghost predicate Pending(ts: seq<nat>, page: nat, order: nat)
      reads this, zone, zone.orders, zone.lists, pools
    {
      && Core() && types != zone.orders && |ts| == types.Length == zone.end - zone.start
      && Aligned(page, order) && zone.start <= page && page + Pow2(order) <= zone.end
      && (forall q | q in Avail() :: !InBlock(q, page, order))
      && forall i | 0 <= i < |ts| :: ts[i] == FREE <==> zone.start + i in Avail() || InBlock(zone.start + i, page, order)
    }

    lemma ValidParts()
      requires Valid()
      ensures Core() && Typed() && types != zone.orders
    {}

    lemma RetypeReady(page: nat, order: nat)
      requires Pending(types[..], page, order)
      ensures types.Length == zone.end - zone.start && zone.start <= page && page + Pow2(order) <= zone.end && AllFree(page, order)
      ensures Aligned(page, order)
    {
      assert forall i | 0 <= i < types.Length :: types[i] == types[..][i];
    }

    lemma Retyped(ts: seq<nat>, page: nat, order: nat)
      requires Pending(ts, page, order)
      requires forall k | 0 <= k < |ts| :: types[k] != FREE <==> InBlock(zone.start + k, page, order) || ts[k] != FREE
      ensures Valid()
    {
      forall i | 0 <= i < types.Length ensures types[i] == FREE <==> zone.start + i in Avail() {
        assert zone.start + i in Avail() ==> !InBlock(zone.start + i, page, order);
      }
    }

    /** A page of a pool, which is filled first if need be. */
    method AllocPage(cpu: nat) returns (page: Option<nat>)
      requires Valid() && cpu < pools.Length
      modifies this`holder, pools, zone`listed, zone`free, zone`nrFree, zone.orders, zone.lists
      ensures page.None? ==>
        Valid() && Avail() == old(Avail()) && old(zone.free) == {} && old(pools[cpu]).nrPages == 0
      ensures page.Some? ==>
        Pending(types[..], page.value, 0) && Block(page.value, 0) <= old(Avail()) && Avail() == old(Avail()) - Block(page.value, 0)
    {
      hide Zone.Valid, Whole, PoolWf, NoDup, Pooled, Block;
      if pools[cpu].nrPages == 0 {
        var filled := Fill(cpu);
        if filled == 0 {
          return None;
        }
      }
      FreeInZone();
      var p := Pop(cpu);
      OnePage(zone.free, p);
      page := Some(p);
    }

    /** A block of the lists. */
    method AllocBlock(order: nat) returns (page: Option<nat>)
      requires Valid() && order < NR_LISTS
      modifies zone`listed, zone`free, zone`nrFree, zone.orders, zone.lists
      ensures page.None? ==> Valid() && Avail() == old(Avail()) && forall p: nat :: !Whole(old(zone.free), p, order)
      ensures page.Some? ==>
        Pending(types[..], page.value, order) && Block(page.value, order) <= old(Avail()) && Avail() == old(Avail()) - Block(page.value, order)
    {
      hide Zone.Valid, PoolWf, NoDup, Pooled;
      FreeInZone();
      ghost var f := zone.free;
      page := zone.AllocFromBuddy(order);
      if page == None {
        assert Avail() == old(Avail());
        return;
      }
      BlockInZone(f, page.value, order);
      assert forall q | q in Block(page.value, order) :: q in f && q !in holder;
      assert Avail() == old(Avail()) - Block(page.value, order);
    }

    lemma BlockInZone(f: set<nat>, p: nat, k: nat)
      requires Whole(f, p, k) && forall q | q in f :: zone.InZone(q)
      ensures Aligned(p, k) && zone.start <= p && p + Pow2(k) <= zone.end && Block(p, k) <= f
    {
      assert InBlock(p, p, k) && InBlock(p + Pow2(k) - 1, p, k);
    }

    /** vm_page_zone_free. */
    method Free(cpu: nat, page: nat, order: nat)
      requires Valid() && cpu < pools.Length && order < NR_LISTS && Aligned(page, order)
      requires zone.start <= page && page + Pow2(order) <= zone.end
      requires forall q | InBlock(q, page, order) :: q !in Avail()
      modifies this`holder, pools, zone`listed, zone`free, zone`nrFree, zone.orders, zone.lists, types
      ensures Valid() && Avail() == old(Avail()) + Block(page, order)
    {
      ghost var ts := types[..];
      SetType(page, order, FREE);
      Untyped(ts, page, order);
      if order == 0 {
        FreePage(cpu, page);
      } else {
        FreeBlock(page, order);
      }
    }

    lemma Untyped(ts: seq<nat>, page: nat, order: nat)
      requires Core() && types != zone.orders && |ts| == types.Length == zone.end - zone.start
      requires forall i | 0 <= i < |ts| :: ts[i] == FREE <==> zone.start + i in Avail()
      requires Aligned(page, order) && zone.start <= page && page + Pow2(order) <= zone.end
      requires forall q | InBlock(q, page, order) :: q !in Avail()
      requires forall k | 0 <= k < |ts| :: types[k] == FREE <==> InBlock(zone.start + k, page, order) || ts[k] == FREE
      ensures Pending(types[..], page, order)
    {
      assert forall i | 0 <= i < types.Length :: types[..][i] == types[i];
    }

    /** A page goes back to a pool, which is drained first if need be. */
    method FreePage(cpu: nat, page: nat)
      requires Pending(types[..], page, 0) && cpu < pools.Length
      modifies this`holder, pools, zone`listed, zone`free, zone`nrFree, zone.orders, zone.lists
      ensures Valid() && Avail() == old(Avail()) + Block(page, 0)
    {
      hide Zone.Valid, PoolWf, NoDup, Pooled, Block;
      OnePage(zone.free, page);
      PoolSizes(cpu);
      if pools[cpu].nrPages == pools[cpu].size {
        Drain(cpu);
      }
      assert page !in Avail();
      Push(cpu, page);
      assert forall i | 0 <= i < types.Length :: types[..][i] == types[i];
      assert Avail() == old(Avail()) + Block(page, 0);
    }

    /** A block goes back to the lists. */
    method FreeBlock(page: nat, order: nat)
      requires Pending(types[..], page, order) && order < NR_LISTS
      modifies zone`listed, zone`free, zone`nrFree, zone.orders, zone.lists
      ensures Valid() && Avail() == old(Avail()) + Block(page, order)
    {
      hide Zone.Valid, PoolWf, NoDup, Pooled;
      zone.FreeToBuddy(page, order);
      assert Avail() == old(Avail()) + Block(page, order);
    }
  }
}
