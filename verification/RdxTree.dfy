// The radix trees of kern/rdxtree.c: nodes of 64 entries, linked to their parents, with allocation bitmaps.

module RdxTree {
  import opened Common

  /** RDXTREE_RADIX_SIZE. */
  const SIZE: nat := 64

  /** The first value that does not fit in a key. */
  const KEYS: nat := 0x1_0000_0000_0000_0000

  /** What an entry holds: the low bit of the word tells nodes from stored pointers. */
  datatype Entry = Nil | Ptr(p: nat) | Child(node: Node)

  class Node {
    const height: nat
    var parent: Node?
    var index: nat
    var nr: nat
    var bm: seq<bool>
    var entries: seq<Entry>

    /** A node as its constructor and rdxtree_node_create leave it. */
    constructor (h: nat)
      ensures height == h && Value() == Cell(null, index, 0, FULL, EMPTY)
    {
      height := h;
      parent := null;
      nr := 0;
      bm := FULL;
      entries := EMPTY;
    }

    ghost function Value(): Cell
      reads this
    {
      Cell(parent, index, nr, bm, entries)
    }
  }

  /** RDXTREE_BM_FULL. */
  const FULL: seq<bool> := Repeat(true, SIZE)

  const EMPTY: seq<Entry> := Repeat(Nil, SIZE)

  /** The mutable part of a node. */
  datatype Cell = Cell(parent: Node?, index: nat, nr: nat, bm: seq<bool>, entries: seq<Entry>)

  type Mem = map<Node, Cell>

  ghost function Snapshot(nodes: set<Node>): Mem
    reads nodes
  {
    map n | n in nodes :: n.Value()
  }

  /** A tree: base gives the bits that all the keys under a node share, above those the node consumes. */
  datatype State = State(m: Mem, base: map<Node, nat>, root: Entry, height: nat, alloc: bool)

  // ---------------------------------------------------------------- keys

  function Pow(h: nat): (r: nat)
    ensures r > 0
  {
    if h == 0 then 1 else SIZE * Pow(h - 1)
  }

  /** (key >> shift) & RDXTREE_RADIX_MASK, for the shift of height h. */
  function Digit(key: nat, h: nat): (r: nat)
    ensures r < SIZE
  {
    key / Pow(h) % SIZE
  }

  /** rdxtree_max_key. */
  function MaxKey(h: nat): nat {
    if h <= 10 then Pow(h) - 1 else KEYS - 1
  }

  lemma Multiples(b: int, d: int)
    requires b > 0
    ensures (d >= 1 ==> b * d >= b) && (d <= -1 ==> b * d <= -b)
  {}

  lemma Distribute(b: int, c: int, x: int, y: int)
    ensures b * (c * x + y) == (b * c) * x + b * y
  {}

  lemma DivUnique(a: nat, b: nat, q: nat, r: nat)
    requires b > 0 && a == b * q + r && r < b
    ensures a / b == q && a % b == r
  {
    var d := a / b - q;
    assert b * d == r - a % b;
    Multiples(b, d);
  }

  lemma DivParts(a: nat, b: nat, c: nat, q: nat, x: nat, y: nat, z: nat)
    requires b > 0 && c > 0 && y < c && z < b && a == b * q + z && q == c * x + y
    ensures b * c > 0 && a / (b * c) == x
  {
    Multiples(b, c);
    Multiples(b, c - y);
    Distribute(b, 1, c - y, y);
    Distribute(b, c, x, y);
    DivUnique(a, b * c, x, b * y + z);
  }

  lemma Euclid(a: nat, b: nat)
    requires b > 0
    ensures a == b * (a / b) + a % b && 0 <= a % b < b && a / b >= 0
  {}

  lemma DivDiv(a: nat, b: nat, c: nat)
    requires b > 0 && c > 0
    ensures b * c > 0 && a / b / c == a / (b * c)
  {
    Euclid(a, b);
    var q, z := a / b, a % b;
    Euclid(q, c);
    DivParts(a, b, c, q, q / c, q % c, z);
  }

  lemma DigitStep(key: nat, h: nat)
    ensures key / Pow(h) == key / Pow(h + 1) * SIZE + Digit(key, h)
    ensures key / Pow(h + 1) == key / Pow(h) / SIZE
  {
    DivDiv(key, Pow(h), SIZE);
    assert Pow(h) * SIZE == Pow(h + 1);
  }

  lemma {:induction false} PowMono(a: nat, b: nat)
    requires a <= b
    ensures Pow(a) <= Pow(b)
  {
    if a < b { PowMono(a, b - 1); }
  }

  lemma PowTop()
    ensures Pow(10) == 0x1000_0000_0000_0000 && Pow(11) == 4 * KEYS
  {
    assert Pow(1) == 64;
    assert Pow(2) == 4096;
    assert Pow(3) == 262144;
    assert Pow(4) == 0x1000000;
    assert Pow(5) == 0x4000_0000;
    assert Pow(6) == 0x10_0000_0000;
    assert Pow(7) == 0x400_0000_0000;
    assert Pow(8) == 0x1_0000_0000_0000;
    assert Pow(9) == 0x40_0000_0000_0000;
  }

  /** rdxtree_max_key separates the keys that fit in a tree of height h. */
  lemma MaxKeyFits(key: nat, h: nat)
    requires key < KEYS && h <= 11
    ensures key <= MaxKey(h) <==> key / Pow(h) == 0
  {
    PowTop();
    if h <= 10 {
      SmallDiv(key, Pow(h));
    } else {
      SmallDiv(key, Pow(11));
    }
  }

  lemma SmallDiv(a: nat, b: nat)
    requires b > 0
    ensures a < b <==> a / b == 0
  {
    if a / b == 0 { assert a == b * (a / b) + a % b; } else { assert b * (a / b) >= b; }
    if a < b { DivUnique(a, b, 0, a); }
  }

  // ---------------------------------------------------------------- entries

  /** The number of entries in use. */
  function Count(e: seq<Entry>): nat {
    if e == [] then 0 else Count(e[..|e| - 1]) + if e[|e| - 1].Nil? then 0 else 1
  }

  lemma {:induction false} CountUpdate(e: seq<Entry>, i: nat, x: Entry)
    requires i < |e|
    ensures Count(e[i := x]) + (if e[i].Nil? then 0 else 1) == Count(e) + if x.Nil? then 0 else 1
  {
    var k := |e| - 1;
    if i == k {
      assert e[i := x][..k] == e[..k];
    } else {
      assert e[i := x][..k] == e[..k][i := x];
      CountUpdate(e[..k], i, x);
    }
  }

  lemma {:induction false} CountBounds(e: seq<Entry>)
    ensures Count(e) <= |e|
    ensures Count(e) == 0 <==> forall i | 0 <= i < |e| :: e[i].Nil?
    ensures Count(e) == |e| <==> forall i | 0 <= i < |e| :: !e[i].Nil?
  {
    if e != [] {
      CountBounds(e[..|e| - 1]);
    }
  }

  /** The only entry in use. */
  lemma CountOne(e: seq<Entry>, i: nat, j: nat)
    requires i < |e| && j < |e| && i != j && !e[i].Nil? && !e[j].Nil?
    ensures Count(e) >= 2
  {
    CountUpdate(e, i, Nil);
    CountBounds(e[i := Nil]);
    assert !e[i := Nil][j].Nil?;
  }

  // ---------------------------------------------------------------- shape

  ghost predicate Sized(x: Cell) { |x.bm| == SIZE && |x.entries| == SIZE && x.nr == Count(x.entries) }

  ghost predicate EntryWf(s: State, n: Node, i: nat)
    requires n in s.m && n in s.base && i < |s.m[n].entries|
  {
    match s.m[n].entries[i]
    case Nil => true
    case Ptr(_) => n.height == 0
    case Child(k) =>
      && k in s.m && k in s.base && s.m[k].parent == n && s.m[k].index == i
      && k.height + 1 == n.height && s.base[k] == s.base[n] * SIZE + i
  }

  ghost predicate ParentWf(s: State, n: Node)
    requires n in s.m && n in s.base
  {
    var x := s.m[n];
    if x.parent == null then s.root == Child(n) && n.height + 1 == s.height && s.base[n] == 0
    else x.parent in s.m && x.index < |s.m[x.parent].entries| && s.m[x.parent].entries[x.index] == Child(n)
  }

  ghost predicate NodeWf(s: State, n: Node)
    requires n in s.m
  {
    && n in s.base && Sized(s.m[n]) && n.height < s.height && ParentWf(s, n)
    && forall i | 0 <= i < SIZE :: EntryWf(s, n, i)
  }

  ghost predicate RootWf(s: State) {
    match s.root
    case Nil => s.m == map[]
    case Ptr(_) => s.m == map[] && s.height == 0
    case Child(r) => r in s.m && s.m[r].parent == null
  }

  ghost predicate Shape(s: State) {
    s.height <= 11 && RootWf(s) && forall n | n in s.m :: NodeWf(s, n)
  }

  lemma Above(s: State, n: Node) returns (p: Node)
    requires Shape(s) && n in s.m && n in s.base && n.height + 1 < s.height
    ensures p in s.m && p in s.base && p.height == n.height + 1 && s.base[p] == s.base[n] / SIZE
    ensures s.m[n].parent == p && s.m[n].index == s.base[n] % SIZE
    ensures |s.m[p].entries| == SIZE && s.m[p].entries[s.base[n] % SIZE] == Child(n)
  {
    assert NodeWf(s, n);
    p := s.m[n].parent;
    assert NodeWf(s, p) && EntryWf(s, p, s.m[n].index);
    DivUnique(s.base[n], SIZE, s.base[p], s.m[n].index);
  }

  lemma Topmost(s: State, n: Node)
    requires Shape(s) && n in s.m && n in s.base
    ensures n.height < s.height && (n.height + 1 == s.height ==> s.root == Child(n) && s.base[n] == 0)
  {
    assert NodeWf(s, n);
    var p := s.m[n].parent;
    if p != null {
      assert NodeWf(s, p) && EntryWf(s, p, s.m[n].index);
    }
  }

  /** A node is determined by its height and the bits its keys share. */
  lemma {:induction false} Unique(s: State, a: Node, b: Node)
    requires Shape(s) && a in s.m && b in s.m && a in s.base && b in s.base && a.height == b.height && s.base[a] == s.base[b]
    ensures a == b
    decreases s.height - a.height
  {
    Topmost(s, a);
    Topmost(s, b);
    if a.height + 1 < s.height {
      var p := Above(s, a);
      var q := Above(s, b);
      Unique(s, p, q);
    }
  }

  /** A node has an ancestor, or itself, at every greater height. */
  lemma {:induction false} Ancestor(s: State, n: Node, h: nat) returns (a: Node)
    requires Shape(s) && n in s.m && n in s.base && n.height <= h < s.height
    ensures a in s.m && a in s.base && a.height == h && s.base[a] == s.base[n] / Pow(h - n.height)
    decreases h - n.height
  {
    if n.height == h {
      a := n;
      assert s.base[n] / 1 == s.base[n];
    } else {
      var p := Above(s, n);
      a := Ancestor(s, p, h);
      DivDiv(s.base[n], SIZE, Pow(h - p.height));
      assert SIZE * Pow(h - p.height) == Pow(h - n.height);
    }
  }


  // ---------------------------------------------------------------- contents

  /** Leaf n binds key k to p. */
  ghost predicate Binds(s: State, n: Node, k: nat, p: nat)
    requires n in s.m
  {
    n.height == 0 && n in s.base && s.base[n] == k / SIZE && |s.m[n].entries| == SIZE && s.m[n].entries[k % SIZE] == Ptr(p)
  }

  /** The tree holds exactly the bindings of c. */
  ghost predicate Models(s: State, c: map<nat, nat>) {
    if s.height == 0 then c == if s.root.Ptr? then map[0 := s.root.p] else map[]
    else
      && (forall n, k: nat, p: nat | n in s.m && Binds(s, n, k, p) :: k in c && c[k] == p)
      && (forall k | k in c :: exists n | n in s.m :: Binds(s, n, k, c[k]))
  }

  /** The node that the search for a key has reached. */
  ghost predicate OnPath(s: State, n: Node, key: nat) {
    n in s.m && n in s.base && s.base[n] == key / Pow(n.height + 1)
  }

  lemma BaseOf(k: nat, h: nat)
    ensures k / SIZE / Pow(h) == k / Pow(h + 1)
  {
    DivDiv(k, SIZE, Pow(h));
  }

  /** A bound key is under every node on its path. */
  lemma Passes(s: State, l: Node, n: Node, key: nat, p: nat)
    requires Shape(s) && l in s.m && Binds(s, l, key, p) && OnPath(s, n, key)
    ensures |s.m[n].entries| == SIZE && !s.m[n].entries[Digit(key, n.height)].Nil?
  {
    assert NodeWf(s, n);
    if n.height == 0 {
      assert key / Pow(1) == key / SIZE && Digit(key, 0) == key % SIZE;
      Unique(s, l, n);
    } else {
      var a := Ancestor(s, l, n.height - 1);
      BaseOf(key, n.height - 1);
      var q := Above(s, a);
      DigitStep(key, n.height);
      Unique(s, q, n);
    }
  }

  /** The search of a key that reaches an empty entry tells that the key is not bound. */
  lemma Absent(s: State, c: map<nat, nat>, n: Node, key: nat)
    requires Shape(s) && Models(s, c) && s.height > 0 && OnPath(s, n, key)
    requires |s.m[n].entries| == SIZE && s.m[n].entries[Digit(key, n.height)].Nil?
    ensures key !in c
  {
    if key in c {
      var l :| l in s.m && Binds(s, l, key, c[key]);
      Passes(s, l, n, key, c[key]);
    }
  }

  /** Bound keys fit in the height of the tree. */
  lemma KeyFits(s: State, c: map<nat, nat>, key: nat)
    requires Shape(s) && Models(s, c) && key in c
    ensures key / Pow(s.height) == 0
  {
    if s.height > 0 {
      var l :| l in s.m && Binds(s, l, key, c[key]);
      Topmost(s, l);
      var a := Ancestor(s, l, s.height - 1);
      Topmost(s, a);
      BaseOf(key, s.height - 1);
    }
  }

  /** The next node of a search. */
  lemma PathDown(s: State, n: Node, key: nat)
    requires Shape(s) && OnPath(s, n, key)
    ensures |s.m[n].entries| == SIZE
    ensures var e := s.m[n].entries[Digit(key, n.height)];
            && (e.Child? ==> n.height > 0 && OnPath(s, e.node, key) && e.node.height + 1 == n.height)
            && (e.Ptr? ==> n.height == 0 && Binds(s, n, key, e.p))
  {
    assert NodeWf(s, n) && EntryWf(s, n, Digit(key, n.height));
    DigitStep(key, n.height);
    assert n.height == 0 ==> Digit(key, 0) == key % SIZE && key / Pow(1) == key / SIZE;
  }

  lemma PathStart(s: State, key: nat)
    requires Shape(s) && s.root.Child? && key / Pow(s.height) == 0
    ensures OnPath(s, s.root.node, key) && s.root.node.height + 1 == s.height
  {
    assert NodeWf(s, s.root.node);
  }

  // ---------------------------------------------------------------- changes

  function Filled(x: Cell, i: nat, e: Entry): Cell
    requires i < |x.entries|
  {
    x.(nr := x.nr + 1, entries := x.entries[i := e])
  }

  function PutPtr(s: State, n: Node, i: nat, p: nat): State
    requires n in s.m && i < |s.m[n].entries|
  {
    s.(m := s.m[n := Filled(s.m[n], i, Ptr(p))])
  }

  lemma FilledSized(x: Cell, i: nat, e: Entry)
    requires Sized(x) && i < SIZE && x.entries[i].Nil? && !e.Nil?
    ensures Sized(Filled(x, i, e))
  {
    CountUpdate(x.entries, i, e);
  }

  lemma PutPtrShape(s: State, n: Node, i: nat, p: nat)
    requires Shape(s) && n in s.m && n.height == 0 && i < SIZE && |s.m[n].entries| == SIZE && s.m[n].entries[i].Nil?
    ensures Shape(PutPtr(s, n, i, p))
  {
    var s' := PutPtr(s, n, i, p);
    assert NodeWf(s, n);
    FilledSized(s.m[n], i, Ptr(p));
    forall x | x in s'.m ensures NodeWf(s', x) {
      assert NodeWf(s, x);
      assert ParentWf(s', x);
      forall j | 0 <= j < SIZE ensures EntryWf(s', x, j) {
        assert EntryWf(s, x, j);
      }
    }
  }

  lemma SameParts(a: nat, b: nat)
    ensures a / SIZE == b / SIZE && a % SIZE == b % SIZE ==> a == b
  {}

  lemma PutPtrModels(s: State, c: map<nat, nat>, n: Node, key: nat, p: nat)
    requires Shape(s) && Models(s, c) && s.height > 0 && OnPath(s, n, key) && n.height == 0
    requires |s.m[n].entries| == SIZE && s.m[n].entries[key % SIZE].Nil?
    ensures Models(PutPtr(s, n, key % SIZE, p), c[key := p])
  {
    var s', c' := PutPtr(s, n, key % SIZE, p), c[key := p];
    assert key / Pow(1) == key / SIZE;
    forall x, k: nat, q: nat | x in s'.m && Binds(s', x, k, q) ensures k in c' && c'[k] == q {
      SameParts(k, key);
      if !(x == n && k % SIZE == key % SIZE) {
        assert Binds(s, x, k, q);
        if k == key { Unique(s, x, n); }
      }
    }
    assert Binds(s', n, key, p);
    forall k | k in c' ensures exists x | x in s'.m :: Binds(s', x, k, c'[k]) {
      if k != key {
        var x :| x in s.m && Binds(s, x, k, c[k]);
        assert Binds(s', x, k, c'[k]);
      }
    }
  }

  function Fresh(p: Node?, i: nat): Cell { Cell(p, i, 0, FULL, EMPTY) }

  lemma FreshSized(p: Node?, i: nat)
    ensures Sized(Fresh(p, i)) && forall j | 0 <= j < SIZE :: EMPTY[j].Nil?
  {
    CountBounds(EMPTY);
  }

  /** A new node k under entry i of n. */
  function Attach(s: State, n: Node, i: nat, k: Node): State
    requires n in s.m && n in s.base && i < |s.m[n].entries|
  {
    s.(m := s.m[n := Filled(s.m[n], i, Child(k))][k := Fresh(n, i)], base := s.base[k := s.base[n] * SIZE + i])
  }

  ghost predicate CanAttach(s: State, n: Node, i: nat, k: Node) {
    && n in s.m && n in s.base && i < SIZE && k !in s.m && k.height + 1 == n.height
    && |s.m[n].entries| == SIZE && s.m[n].entries[i].Nil?
  }

  lemma NotReferenced(s: State, n: Node, i: nat, k: Node)
    requires Shape(s) && n in s.m && i < SIZE && k !in s.m
    ensures |s.m[n].entries| == SIZE && s.m[n].entries[i] != Child(k) && s.m[n].parent != k
  {
    assert NodeWf(s, n) && EntryWf(s, n, i);
  }

  /** A node stays well formed when it, its entry in its parent, and the links of its children, are the same. */
  lemma NodeKept(s: State, s': State, x: Node)
    requires x in s.m && NodeWf(s, x) && x in s'.m && s'.m[x] == s.m[x] && s'.height == s.height && s'.root == s.root
    requires x in s'.base && s'.base[x] == s.base[x]
    requires s.m[x].parent != null && s.m[x].parent in s.m ==>
      s.m[x].parent in s'.m && s.m[x].index < |s'.m[s.m[x].parent].entries|
      && s'.m[s.m[x].parent].entries[s.m[x].index] == Child(x)
    requires forall j | 0 <= j < SIZE && s.m[x].entries[j].Child? :: LinkKept(s, s', s.m[x].entries[j].node)
    ensures NodeWf(s', x)
  {
    forall j | 0 <= j < SIZE ensures EntryWf(s', x, j) { assert EntryWf(s, x, j); }
  }

  ghost predicate LinkKept(s: State, s': State, k: Node) {
    k in s.m && k in s.base ==>
      k in s'.m && k in s'.base && s'.base[k] == s.base[k] && s'.m[k].parent == s.m[k].parent && s'.m[k].index == s.m[k].index
  }

  lemma AttachHere(s: State, n: Node, i: nat, k: Node)
    requires CanAttach(s, n, i, k) && NodeWf(s, n) && s.m[n].parent != n && s.m[n].parent != k
    requires forall j | 0 <= j < SIZE :: s.m[n].entries[j] != Child(k) && s.m[n].entries[j] != Child(n)
    ensures NodeWf(Attach(s, n, i, k), n)
  {
    var s' := Attach(s, n, i, k);
    FilledSized(s.m[n], i, Child(k));
    assert ParentWf(s', n);
    forall j | 0 <= j < SIZE ensures EntryWf(s', n, j) { assert EntryWf(s, n, j); }
  }

  lemma AttachOther(s: State, n: Node, i: nat, k: Node, x: Node)
    requires CanAttach(s, n, i, k) && x in s.m && x != n && x != k && NodeWf(s, x)
    requires s.m[x].parent != k && forall j | 0 <= j < SIZE :: s.m[x].entries[j] != Child(k)
    requires s.m[x].parent == n ==> s.m[x].index != i
    ensures NodeWf(Attach(s, n, i, k), x)
  {
    NodeKept(s, Attach(s, n, i, k), x);
  }

  lemma NotSelf(s: State, n: Node, x: Node)
    requires Shape(s) && n in s.m && x in s.m
    ensures NodeWf(s, x) && s.m[n].parent != n && forall j | 0 <= j < SIZE :: s.m[n].entries[j] != Child(n)
    ensures s.m[x].parent == n ==> s.m[x].index < SIZE && !s.m[n].entries[s.m[x].index].Nil?
  {
    assert NodeWf(s, n) && NodeWf(s, x);
    FullParent(s, n);
    FullParent(s, x);
    forall j | 0 <= j < SIZE ensures s.m[n].entries[j] != Child(n) { assert EntryWf(s, n, j); }
  }

  lemma AttachNode(s: State, n: Node, i: nat, k: Node, x: Node)
    requires Shape(s) && CanAttach(s, n, i, k) && x in s.m
    ensures NodeWf(Attach(s, n, i, k), x)
  {
    hide Shape, Attach;
    NotSelf(s, n, x);
    forall j | 0 <= j < SIZE ensures s.m[x].entries[j] != Child(k) && s.m[x].parent != k { NotReferenced(s, x, j, k); }
    NotReferenced(s, x, 0, k);
    if x == n { AttachHere(s, n, i, k); } else { AttachOther(s, n, i, k, x); }
  }

  lemma AttachShape(s: State, n: Node, i: nat, k: Node)
    requires Shape(s) && CanAttach(s, n, i, k)
    ensures Shape(Attach(s, n, i, k))
  {
    var s' := Attach(s, n, i, k);
    FreshSized(n, i);
    assert NodeWf(s, n);
    assert NodeWf(s', k) by { assert ParentWf(s', k); }
    assert s.root != Child(k) && s'.root == s.root;
    forall x | x in s'.m ensures NodeWf(s', x) {
      if x != k { AttachNode(s, n, i, k, x); }
    }
  }

  lemma AttachModels(s: State, c: map<nat, nat>, n: Node, i: nat, k: Node)
    requires Shape(s) && Models(s, c) && CanAttach(s, n, i, k) && s.height > 0
    ensures Models(Attach(s, n, i, k), c)
  {
    var s' := Attach(s, n, i, k);
    FreshSized(n, i);
    forall x, key: nat, p: nat | x in s'.m && Binds(s', x, key, p) ensures key in c && c[key] == p {
      assert x != k && Binds(s, x, key, p);
    }
    forall key | key in c ensures exists x | x in s'.m :: Binds(s', x, key, c[key]) {
      var x :| x in s.m && Binds(s, x, key, c[key]);
      assert Binds(s', x, key, c[key]);
    }
  }

  /** A first node, in a tree whose height has grown while empty. */
  function AttachRoot(s: State, k: Node, i: nat): State {
    s.(m := map[k := Fresh(null, i)], base := s.base[k := 0], root := Child(k))
  }

  lemma AttachRootShape(s: State, c: map<nat, nat>, k: Node, i: nat)
    requires Shape(s) && Models(s, c) && s.root.Nil? && s.height == k.height + 1
    ensures Shape(AttachRoot(s, k, i)) && Models(AttachRoot(s, k, i), c)
  {
    FreshSized(null, i);
    var s' := AttachRoot(s, k, i);
    assert NodeWf(s', k);
    assert c.Keys == {};
  }

  function Emptied(x: Cell, i: nat): Cell
    requires i < |x.entries| && x.nr > 0
  {
    x.(nr := x.nr - 1, entries := x.entries[i := Nil])
  }

  lemma EmptiedSized(x: Cell, i: nat)
    requires Sized(x) && i < SIZE && !x.entries[i].Nil?
    ensures x.nr > 0 && Sized(Emptied(x, i))
  {
    CountUpdate(x.entries, i, Nil);
  }

  /** The empty node n leaves its parent. */
  function Detach(s: State, n: Node, p: Node, i: nat): State
    requires n in s.m && p in s.m && i < |s.m[p].entries| && s.m[p].nr > 0
  {
    s.(m := s.m[p := Emptied(s.m[p], i)] - {n})
  }

  ghost predicate CanDetach(s: State, n: Node, p: Node) {
    n in s.m && s.m[n].nr == 0 && s.m[n].parent == p
  }

  lemma DetachReady(s: State, n: Node, p: Node)
    requires Shape(s) && CanDetach(s, n, p)
    ensures p in s.m && p != n && s.m[n].index < SIZE
    ensures |s.m[p].entries| == SIZE && s.m[p].entries[s.m[n].index] == Child(n) && s.m[p].nr > 0
    ensures forall j | 0 <= j < SIZE :: |s.m[n].entries| == SIZE && s.m[n].entries[j].Nil?
  {
    assert NodeWf(s, n);
    assert NodeWf(s, p) && EntryWf(s, p, s.m[n].index);
    EmptiedSized(s.m[p], s.m[n].index);
    CountBounds(s.m[n].entries);
  }

  /** Only its parent, at its index, refers to a node. */
  lemma OneReference(s: State, n: Node, x: Node, j: nat)
    requires Shape(s) && n in s.m && x in s.m && j < SIZE
    ensures |s.m[x].entries| == SIZE
    ensures s.m[x].entries[j] == Child(n) ==> x == s.m[n].parent && j == s.m[n].index
  {
    assert NodeWf(s, x) && EntryWf(s, x, j);
  }

  lemma DetachHere(s: State, n: Node, p: Node)
    requires n in s.m && p in s.m && p != n && NodeWf(s, p) && s.m[n].index < SIZE && !s.m[p].entries[s.m[n].index].Nil?
    requires s.m[p].parent != p && s.m[p].parent != n
    requires forall j | 0 <= j < SIZE && s.m[p].entries[j] == Child(n) :: j == s.m[n].index
    requires forall j | 0 <= j < SIZE :: s.m[p].entries[j] != Child(p)
    ensures s.m[p].nr > 0 && NodeWf(Detach(s, n, p, s.m[n].index), p)
  {
    EmptiedSized(s.m[p], s.m[n].index);
    var s' := Detach(s, n, p, s.m[n].index);
    assert ParentWf(s', p);
    forall j | 0 <= j < SIZE ensures EntryWf(s', p, j) { assert EntryWf(s, p, j); }
  }

  lemma DetachOther(s: State, n: Node, p: Node, x: Node)
    requires n in s.m && p in s.m && p != n && x in s.m && x != n && x != p && NodeWf(s, x) && s.m[x].parent != n
    requires s.m[n].index < |s.m[p].entries| && s.m[p].nr > 0 && s.m[p].entries[s.m[n].index] == Child(n)
    requires forall j | 0 <= j < SIZE :: s.m[x].entries[j] != Child(n)
    ensures NodeWf(Detach(s, n, p, s.m[n].index), x)
  {
    NodeKept(s, Detach(s, n, p, s.m[n].index), x);
  }

  lemma DetachNode(s: State, n: Node, p: Node, x: Node)
    requires Shape(s) && CanDetach(s, n, p) && x in s.m && x != n
    requires p in s.m && p != n && s.m[n].index < |s.m[p].entries| && s.m[p].nr > 0 && s.m[p].entries[s.m[n].index] == Child(n)
    requires |s.m[n].entries| == SIZE && s.m[x].parent != n && s.m[p].parent != n
    ensures NodeWf(Detach(s, n, p, s.m[n].index), x)
  {
    hide Shape, Detach;
    NotSelf(s, p, x);
    forall j | 0 <= j < SIZE ensures s.m[x].entries[j] == Child(n) ==> x == p && j == s.m[n].index { OneReference(s, n, x, j); }
    if x == p { DetachHere(s, n, p); } else { DetachOther(s, n, p, x); }
  }

  lemma NoChild(s: State, n: Node, x: Node)
    requires Shape(s) && n in s.m && x in s.m && |s.m[n].entries| == SIZE
    requires forall j | 0 <= j < SIZE :: s.m[n].entries[j].Nil?
    ensures s.m[x].parent != n
  {
    assert NodeWf(s, x);
  }

  lemma DetachShape(s: State, n: Node, p: Node)
    requires Shape(s) && CanDetach(s, n, p)
    ensures p in s.m && s.m[n].index < |s.m[p].entries| && s.m[p].nr > 0
    ensures Shape(Detach(s, n, p, s.m[n].index))
  {
    DetachReady(s, n, p);
    var s' := Detach(s, n, p, s.m[n].index);
    assert NodeWf(s, p) && NodeWf(s, n);
    EmptiedSized(s.m[p], s.m[n].index);
    NoChild(s, n, p);
    forall x | x in s'.m ensures NodeWf(s', x) {
      NoChild(s, n, x);
      DetachNode(s, n, p, x);
    }
  }

  lemma DetachModels(s: State, c: map<nat, nat>, n: Node, p: Node)
    requires Shape(s) && Models(s, c) && CanDetach(s, n, p) && s.height > 0
    ensures p in s.m && s.m[n].index < |s.m[p].entries| && s.m[p].nr > 0
    ensures Models(Detach(s, n, p, s.m[n].index), c)
  {
    DetachReady(s, n, p);
    hide Shape;
    var s' := Detach(s, n, p, s.m[n].index);
    forall x, key: nat, q: nat | x in s'.m && Binds(s', x, key, q) ensures key in c && c[key] == q {
      DetachBinds(s, n, p, x, key, q);
    }
    forall key | key in c ensures exists x | x in s'.m :: Binds(s', x, key, c[key]) {
      var x :| x in s.m && Binds(s, x, key, c[key]);
      DetachBinds(s, n, p, x, key, c[key]);
    }
  }

  /** An empty child binds nothing, and its parent's other entries stay. */
  lemma DetachBinds(s: State, n: Node, p: Node, x: Node, key: nat, q: nat)
    requires CanDetach(s, n, p) && x in s.m && p in s.m
    requires s.m[n].index < |s.m[p].entries| && s.m[p].nr > 0 && s.m[p].entries[s.m[n].index] == Child(n)
    requires forall i | 0 <= i < |s.m[n].entries| :: s.m[n].entries[i].Nil?
    ensures var s' := Detach(s, n, p, s.m[n].index); x in s'.m && Binds(s', x, key, q) <==> Binds(s, x, key, q)
  {}

  /** An empty root is the only node. */
  lemma OnlyRoot(s: State, c: map<nat, nat>, r: Node)
    requires Shape(s) && Models(s, c) && s.root == Child(r) && s.m[r].nr == 0
    ensures s.m == map[r := s.m[r]] && c == map[]
  {
    assert NodeWf(s, r);
    CountBounds(s.m[r].entries);
    forall x | x in s.m ensures x == r {
      assert NodeWf(s, x);
      if x.height + 1 == s.height {
        Topmost(s, x);
      } else {
        var a := Ancestor(s, x, s.height - 2);
        var q := Above(s, a);
        Topmost(s, q);
      }
    }
    NoLeafNoKey(s, c);
  }

  lemma NoLeafNoKey(s: State, c: map<nat, nat>)
    requires Models(s, c) && s.height > 0
    requires forall x | x in s.m :: forall i | 0 <= i < |s.m[x].entries| :: s.m[x].entries[i].Nil?
    ensures c == map[]
  {
    assert forall key | key in c :: exists n | n in s.m :: Binds(s, n, key, c[key]);
    assert c.Keys == {};
  }

  /** The tree becomes empty. */
  function Cleared(s: State): State { s.(m := map[], root := Nil, height := 0) }

  /** One node less above the only entry of the root. */
  function Shrunk(s: State, r: Node, e: Entry): State
    requires s.height > 0 && r in s.m && (e.Child? ==> e.node in s.m)
  {
    var m := if e.Child? then s.m[e.node := s.m[e.node].(parent := null)] else s.m;
    s.(m := m - {r}, root := e, height := s.height - 1)
  }

  ghost predicate CanShrink(s: State, r: Node) {
    s.height > 0 && s.root == Child(r) && r in s.m && s.m[r].nr == 1 && |s.m[r].entries| == SIZE && !s.m[r].entries[0].Nil?
  }

  lemma ShrinkReady(s: State, r: Node)
    requires Shape(s) && CanShrink(s, r)
    ensures r in s.base && s.base[r] == 0 && r.height + 1 == s.height && s.m[r].parent == null
    ensures forall j | 0 < j < SIZE :: s.m[r].entries[j].Nil?
    ensures var e := s.m[r].entries[0];
            && (e.Ptr? <==> s.height == 1)
            && (e.Child? ==> e.node in s.m && e.node in s.base && e.node != r && s.base[e.node] == 0
                             && s.m[e.node].parent == r && e.node.height + 2 == s.height)
  {
    assert NodeWf(s, r) && EntryWf(s, r, 0);
    forall j | 0 < j < SIZE ensures s.m[r].entries[j].Nil? {
      if !s.m[r].entries[j].Nil? { CountOne(s.m[r].entries, 0, j); }
    }
  }

  lemma ShrinkNode(s: State, r: Node, x: Node)
    requires Shape(s) && CanShrink(s, r) && x in s.m && x != r && s.m[r].entries[0].Child? && s.m[r].entries[0].node in s.m
    requires s.m[r].parent == null && s.base.Keys >= s.m.Keys && r.height + 1 == s.height
    requires forall j | 0 < j < SIZE :: s.m[r].entries[j].Nil?
    requires var k := s.m[r].entries[0].node; k.height + 2 == s.height && s.base[k] == 0
    ensures NodeWf(Shrunk(s, r, s.m[r].entries[0]), x)
  {
    var s' := Shrunk(s, r, s.m[r].entries[0]);
    assert NodeWf(s, x);
    Below(s, r, x);
    if s.m[x].parent == r {
      OneReference(s, x, r, s.m[x].index);
      assert s.m[x].index == 0;
    }
    assert ParentWf(s', x);
    forall j | 0 <= j < SIZE ensures EntryWf(s', x, j) {
      OneReference(s, r, x, j);
      OneReference(s, s.m[r].entries[0].node, x, j);
      assert EntryWf(s, x, j);
    }
  }

  lemma Below(s: State, r: Node, x: Node)
    requires Shape(s) && s.root == Child(r) && x in s.m && x != r
    ensures x in s.base && x.height + 1 < s.height && s.m[x].parent != null
    ensures s.m[x].parent in s.m && s.m[x].index < SIZE && |s.m[s.m[x].parent].entries| == SIZE
    ensures s.m[s.m[x].parent].entries[s.m[x].index] == Child(x)
  {
    assert NodeWf(s, x);
    Topmost(s, x);
    var p := Above(s, x);
  }

  lemma OnlyTop(s: State, r: Node)
    requires Shape(s) && s.root == Child(r) && s.height == 1
    ensures s.m.Keys == {r}
  {
    forall x | x in s.m ensures x == r {
      if x != r { Below(s, r, x); }
    }
  }

  lemma ShrinkShape(s: State, r: Node)
    requires Shape(s) && CanShrink(s, r)
    ensures s.m[r].entries[0].Child? ==> s.m[r].entries[0].node in s.m
    ensures Shape(Shrunk(s, r, s.m[r].entries[0]))
  {
    ShrinkReady(s, r);
    var e := s.m[r].entries[0];
    var s' := Shrunk(s, r, e);
    if e.Ptr? {
      OnlyTop(s, r);
    } else {
      forall x | x in s.m ensures x in s.base { assert NodeWf(s, x); }
      forall x | x in s'.m ensures NodeWf(s', x) { ShrinkNode(s, r, x); }
    }
  }

  lemma ShrinkModels(s: State, c: map<nat, nat>, r: Node)
    requires Shape(s) && Models(s, c) && CanShrink(s, r)
    ensures s.m[r].entries[0].Child? ==> s.m[r].entries[0].node in s.m
    ensures Models(Shrunk(s, r, s.m[r].entries[0]), c)
  {
    ShrinkReady(s, r);
    var e := s.m[r].entries[0];
    var s' := Shrunk(s, r, e);
    if e.Ptr? {
      OnlyTop(s, r);
      SingleKey(s, c, r);
    } else {
      ShrinkModelsNode(s, c, r);
    }
  }

  lemma ShrinkModelsNode(s: State, c: map<nat, nat>, r: Node)
    requires Shape(s) && Models(s, c) && CanShrink(s, r) && s.m[r].entries[0].Child? && s.m[r].entries[0].node in s.m
    ensures Models(Shrunk(s, r, s.m[r].entries[0]), c)
  {
    ShrinkReady(s, r);
    var s' := Shrunk(s, r, s.m[r].entries[0]);
    forall x, key: nat, q: nat | x in s'.m && Binds(s', x, key, q) ensures key in c && c[key] == q {
      assert Binds(s, x, key, q);
    }
    forall key | key in c ensures exists x | x in s'.m :: Binds(s', x, key, c[key]) {
      var x :| x in s.m && Binds(s, x, key, c[key]);
      assert x != r && Binds(s', x, key, c[key]);
    }
  }

  lemma SingleKey(s: State, c: map<nat, nat>, r: Node)
    requires Models(s, c) && s.height == 1 && s.m.Keys == {r} && r in s.base && s.base[r] == 0 && r.height == 0
    requires |s.m[r].entries| == SIZE && s.m[r].entries[0].Ptr? && forall j | 0 < j < SIZE :: s.m[r].entries[j].Nil?
    ensures c == map[0 := s.m[r].entries[0].p]
  {
    assert Binds(s, r, 0, s.m[r].entries[0].p);
    forall key | key in c ensures key == 0 {
      var x :| x in s.m && Binds(s, x, key, c[key]);
      assert key == key / SIZE * SIZE + key % SIZE;
    }
  }

  /** A new root k above the root. */
  function Grown(s: State, k: Node, i: nat, bm: seq<bool>): State
    requires s.root.Child? ==> s.root.node in s.m
  {
    var m := if s.root.Child? then s.m[s.root.node := s.m[s.root.node].(parent := k, index := 0)] else s.m;
    s.(m := m[k := Cell(null, i, 1, bm, EMPTY[0 := s.root])], base := s.base[k := 0], root := Child(k), height := s.height + 1)
  }

  ghost predicate CanGrow(s: State, k: Node, bm: seq<bool>) {
    !s.root.Nil? && k !in s.m && k.height == s.height && s.height < 11 && |bm| == SIZE
  }

  lemma GrownSized(i: nat, bm: seq<bool>, e: Entry)
    requires |bm| == SIZE && !e.Nil?
    ensures Sized(Cell(null, i, 1, bm, EMPTY[0 := e]))
  {
    CountBounds(EMPTY);
    CountUpdate(EMPTY, 0, e);
  }

  lemma GrowNode(s: State, k: Node, i: nat, bm: seq<bool>, x: Node)
    requires Shape(s) && CanGrow(s, k, bm) && x in s.m && s.root.Child? && s.root.node in s.m
    ensures NodeWf(Grown(s, k, i, bm), x)
  {
    var s' := Grown(s, k, i, bm);
    assert NodeWf(s, x);
    assert ParentWf(s', x) by {
      if s.m[x].parent != null { assert s.m[x].parent != k; }
    }
    forall j | 0 <= j < SIZE ensures EntryWf(s', x, j) {
      NotReferenced(s, x, j, k);
      OneReference(s, s.root.node, x, j);
      assert EntryWf(s, x, j);
    }
  }

  lemma GrowShape(s: State, k: Node, i: nat, bm: seq<bool>)
    requires Shape(s) && CanGrow(s, k, bm) && (s.root.Ptr? ==> s.height == 0)
    ensures s.root.Child? ==> s.root.node in s.m
    ensures Shape(Grown(s, k, i, bm))
  {
    var s' := Grown(s, k, i, bm);
    GrownSized(i, bm, s.root);
    if s.root.Child? { assert NodeWf(s, s.root.node); }
    assert NodeWf(s', k) by {
      assert ParentWf(s', k);
      forall j | 0 <= j < SIZE ensures EntryWf(s', k, j) {}
    }
    forall x | x in s'.m ensures NodeWf(s', x) {
      if x != k { GrowNode(s, k, i, bm, x); }
    }
  }

  lemma GrowModels(s: State, c: map<nat, nat>, k: Node, i: nat, bm: seq<bool>)
    requires Shape(s) && Models(s, c) && CanGrow(s, k, bm)
    ensures s.root.Child? ==> s.root.node in s.m
    ensures Models(Grown(s, k, i, bm), c)
  {
    if s.root.Child? {
      assert NodeWf(s, s.root.node);
      GrowModelsNode(s, c, k, i, bm);
    } else {
      GrowModelsPtr(s, c, k, i, bm);
    }
  }

  lemma GrowModelsPtr(s: State, c: map<nat, nat>, k: Node, i: nat, bm: seq<bool>)
    requires Shape(s) && Models(s, c) && CanGrow(s, k, bm) && s.root.Ptr?
    ensures Models(Grown(s, k, i, bm), c)
  {
    var s' := Grown(s, k, i, bm);
    assert Binds(s', k, 0, s.root.p);
    forall x, key: nat, q: nat | x in s'.m && Binds(s', x, key, q) ensures key in c && c[key] == q {
      assert key == key / SIZE * SIZE + key % SIZE;
    }
  }

  lemma GrowModelsNode(s: State, c: map<nat, nat>, k: Node, i: nat, bm: seq<bool>)
    requires Shape(s) && Models(s, c) && CanGrow(s, k, bm) && s.root.Child? && s.root.node in s.m && s.height > 0
    ensures Models(Grown(s, k, i, bm), c)
  {
    var s' := Grown(s, k, i, bm);
    forall x, key: nat, q: nat | x in s'.m && Binds(s', x, key, q) ensures key in c && c[key] == q {
      assert Binds(s, x, key, q);
    }
    forall key | key in c ensures exists x | x in s'.m :: Binds(s', x, key, c[key]) {
      var x :| x in s.m && Binds(s, x, key, c[key]);
      assert x != k && Binds(s', x, key, c[key]);
    }
  }

  // ---------------------------------------------------------------- bitmaps

  ghost predicate HasSet(bm: seq<bool>) { exists j | 0 <= j < |bm| :: bm[j] }

  ghost predicate HasClear(bm: seq<bool>) { exists j | 0 <= j < |bm| :: !bm[j] }

  /** A clear bit of an inner node is above a node with a clear bit; a set one above nothing, or a node with a set
      bit. A bit of a leaf is set when its entry is empty. */
  ghost predicate BitWf(s: State, n: Node, i: nat)
    requires n in s.m && i < |s.m[n].bm| && i < |s.m[n].entries|
  {
    match s.m[n].entries[i]
    case Nil => s.m[n].bm[i]
    case Ptr(_) => !s.m[n].bm[i]
    case Child(k) => k in s.m && if s.m[n].bm[i] then HasSet(s.m[k].bm) else HasClear(s.m[k].bm)
  }

  ghost predicate BitsWf(s: State, n: Node)
    requires n in s.m
  {
    |s.m[n].bm| == SIZE && |s.m[n].entries| == SIZE &&
    if s.alloc then forall i | 0 <= i < SIZE :: BitWf(s, n, i) else s.m[n].bm == FULL
  }

  ghost predicate Bits(s: State) { forall n | n in s.m :: BitsWf(s, n) }

  /** A node without entries is as its constructor left it. */
  lemma EmptyIsFresh(s: State, n: Node)
    requires Shape(s) && Bits(s) && n in s.m && s.m[n].nr == 0
    ensures s.m[n].bm == FULL && s.m[n].entries == EMPTY
  {
    assert NodeWf(s, n) && BitsWf(s, n);
    CountBounds(s.m[n].entries);
    if s.alloc {
      forall i | 0 <= i < SIZE ensures s.m[n].bm[i] { assert BitWf(s, n, i); }
    }
  }

  lemma BitsKept(s: State, s': State, x: Node)
    requires x in s.m && BitsWf(s, x) && x in s'.m && s'.alloc == s.alloc
    requires s'.m[x].bm == s.m[x].bm && s'.m[x].entries == s.m[x].entries
    requires forall j | 0 <= j < SIZE && s.m[x].entries[j].Child? ::
      s.m[x].entries[j].node in s.m ==> s.m[x].entries[j].node in s'.m
                                         && s'.m[s.m[x].entries[j].node].bm == s.m[s.m[x].entries[j].node].bm
    ensures BitsWf(s', x)
  {
    if s.alloc {
      forall j | 0 <= j < SIZE ensures BitWf(s', x, j) { assert BitWf(s, x, j); }
    }
  }

  lemma AttachBits(s: State, n: Node, i: nat, k: Node)
    requires Shape(s) && Bits(s) && CanAttach(s, n, i, k)
    ensures Bits(Attach(s, n, i, k))
  {
    var s' := Attach(s, n, i, k);
    forall x | x in s'.m ensures BitsWf(s', x) {
      if x == n {
        AttachBitsHere(s, n, i, k);
      } else if x != k {
        assert BitsWf(s, x);
        BitsKept(s, s', x);
      }
    }
  }

  lemma AttachBitsHere(s: State, n: Node, i: nat, k: Node)
    requires CanAttach(s, n, i, k) && BitsWf(s, n)
    ensures BitsWf(Attach(s, n, i, k), n)
  {
    var s' := Attach(s, n, i, k);
    assert FULL[0];
    if s.alloc {
      forall j | 0 <= j < SIZE ensures BitWf(s', n, j) { assert BitWf(s, n, j); }
    }
  }

  lemma AttachRootBits(s: State, k: Node, i: nat)
    ensures Bits(AttachRoot(s, k, i))
  {}

  lemma DetachBits(s: State, n: Node, p: Node)
    requires Shape(s) && Bits(s) && CanDetach(s, n, p)
    ensures p in s.m && s.m[n].index < |s.m[p].entries| && s.m[p].nr > 0
    ensures Bits(Detach(s, n, p, s.m[n].index))
  {
    DetachReady(s, n, p);
    EmptyIsFresh(s, n);
    var s' := Detach(s, n, p, s.m[n].index);
    forall x | x in s'.m ensures BitsWf(s', x) {
      assert BitsWf(s, x);
      forall j | 0 <= j < SIZE && s.m[x].entries[j] == Child(n) ensures x == p && j == s.m[n].index {
        OneReference(s, n, x, j);
      }
      if x == p { DetachBitsHere(s, n, p); } else { BitsKept(s, s', x); }
    }
  }

  lemma DetachBitsHere(s: State, n: Node, p: Node)
    requires p in s.m && n in s.m && p != n && BitsWf(s, p) && s.m[n].index < SIZE && s.m[p].nr > 0 && s.m[n].bm == FULL
    requires s.m[p].entries[s.m[n].index] == Child(n)
    requires forall j | 0 <= j < SIZE && s.m[p].entries[j] == Child(n) :: j == s.m[n].index
    ensures BitsWf(Detach(s, n, p, s.m[n].index), p)
  {
    var s' := Detach(s, n, p, s.m[n].index);
    if s.alloc {
      forall j | 0 <= j < SIZE ensures BitWf(s', p, j) { assert BitWf(s, p, j); }
    }
  }

  lemma ShrinkBitsAt(s: State, r: Node, x: Node)
    requires Shape(s) && CanShrink(s, r) && x in s.m && x != r && BitsWf(s, x)
    requires s.m[r].entries[0].Child? ==> s.m[r].entries[0].node in s.m
    ensures BitsWf(Shrunk(s, r, s.m[r].entries[0]), x)
  {
    forall j | 0 <= j < SIZE && s.m[x].entries[j].Child? ensures s.m[x].entries[j].node != r {
      OneReference(s, r, x, j);
    }
    BitsKept(s, Shrunk(s, r, s.m[r].entries[0]), x);
  }

  lemma ShrinkBits(s: State, r: Node)
    requires Shape(s) && Bits(s) && CanShrink(s, r)
    ensures s.m[r].entries[0].Child? ==> s.m[r].entries[0].node in s.m
    ensures Bits(Shrunk(s, r, s.m[r].entries[0]))
  {
    hide Shape, BitsWf;
    ShrinkReady(s, r);
    var s' := Shrunk(s, r, s.m[r].entries[0]);
    forall x | x in s'.m ensures BitsWf(s', x) {
      ShrinkBitsAt(s, r, x);
    }
  }

  /** The bitmap of a new root: its first bit is clear when nothing can be allocated below. */
  ghost predicate GrownBm(s: State, bm: seq<bool>) {
    if s.alloc && (s.root.Ptr? || (s.root.Child? && s.root.node in s.m && !HasSet(s.m[s.root.node].bm)))
    then bm == FULL[0 := false] else bm == FULL
  }

  lemma GrowBits(s: State, k: Node, i: nat, bm: seq<bool>)
    requires Shape(s) && Bits(s) && CanGrow(s, k, bm) && GrownBm(s, bm)
    ensures s.root.Child? ==> s.root.node in s.m
    ensures Bits(Grown(s, k, i, bm))
  {
    var s' := Grown(s, k, i, bm);
    if s.root.Child? { assert BitsWf(s, s.root.node) && NodeWf(s, s.root.node) && (HasSet(s.m[s.root.node].bm) || !s.m[s.root.node].bm[0]); }
    forall x | x in s'.m ensures BitsWf(s', x) {
      if x != k {
        assert BitsWf(s, x) && NodeWf(s, x);
        if s.alloc {
          forall j | 0 <= j < SIZE ensures BitWf(s', x, j) { assert BitWf(s, x, j); }
        }
      } else if s.alloc {
        assert bm[1];
        forall j | 0 <= j < SIZE ensures BitWf(s', x, j) {}
      }
    }
  }

  function SetBit(s: State, n: Node, i: nat, b: bool): State
    requires n in s.m && i < |s.m[n].bm|
  {
    s.(m := s.m[n := s.m[n].(bm := s.m[n].bm[i := b])])
  }

  lemma SetBitShape(s: State, c: map<nat, nat>, n: Node, i: nat, b: bool)
    requires Shape(s) && n in s.m && i < |s.m[n].bm|
    ensures Shape(SetBit(s, n, i, b))
    ensures Models(s, c) ==> Models(SetBit(s, n, i, b), c)
  {
    var s' := SetBit(s, n, i, b);
    forall x | x in s'.m ensures NodeWf(s', x) {
      assert NodeWf(s, x);
      forall j | 0 <= j < SIZE ensures EntryWf(s', x, j) { assert EntryWf(s, x, j); }
    }
    if Models(s, c) { SetBitModels(s, c, n, i, b); }
  }

  lemma SetBitModels(s: State, c: map<nat, nat>, n: Node, i: nat, b: bool)
    requires Models(s, c) && n in s.m && i < |s.m[n].bm|
    ensures Models(SetBit(s, n, i, b), c)
  {
    var s' := SetBit(s, n, i, b);
    forall x, key: nat, q: nat | s.height > 0 && x in s'.m && Binds(s', x, key, q) ensures key in c && c[key] == q {
      assert Binds(s, x, key, q);
    }
    forall key | s.height > 0 && key in c ensures exists x | x in s'.m :: Binds(s', x, key, c[key]) {
      var x :| x in s.m && Binds(s, x, key, c[key]);
      assert Binds(s', x, key, c[key]);
    }
  }

  /** Every bit is right but bit i of n. */
  ghost predicate BitsBut(s: State, n: Node, i: nat) {
    && s.alloc && (forall x | x in s.m :: |s.m[x].bm| == SIZE && |s.m[x].entries| == SIZE)
    && forall x, j | x in s.m && 0 <= j < SIZE && !(x == n && j == i) :: BitWf(s, x, j)
  }

  /** Bit i of n is to be cleared. */
  ghost predicate ClearDue(s: State, n: Node, i: nat) {
    && n in s.m && i < SIZE && BitsBut(s, n, i)
    && match s.m[n].entries[i]
       case Nil => false
       case Ptr(_) => true
       case Child(k) => k in s.m && HasClear(s.m[k].bm)
  }

  /** Bit i of n is to be set. */
  ghost predicate SetDue(s: State, n: Node, i: nat) {
    && n in s.m && i < SIZE && BitsBut(s, n, i)
    && match s.m[n].entries[i]
       case Nil => true
       case Ptr(_) => false
       case Child(k) => k in s.m && HasSet(s.m[k].bm)
  }

  lemma FullParent(s: State, n: Node)
    requires Shape(s) && n in s.m
    ensures s.m[n].parent != null ==>
      s.m[n].parent in s.m && s.m[n].index < SIZE && s.m[n].parent != n && s.m[n].parent.height == n.height + 1
      && |s.m[s.m[n].parent].entries| == SIZE && s.m[s.m[n].parent].entries[s.m[n].index] == Child(n)
    ensures n.height < s.height
  {
    assert NodeWf(s, n);
    var p := s.m[n].parent;
    if p != null { assert NodeWf(s, p) && EntryWf(s, p, s.m[n].index); }
  }

  /** A change of one bit of n can only matter to n and, at its index, to its parent. */
  lemma BitElsewhere(s: State, n: Node, i: nat, b: bool, x: Node, j: nat)
    requires Shape(s) && n in s.m && i < SIZE && |s.m[n].bm| == SIZE && x in s.m && j < SIZE
    requires |s.m[x].bm| == SIZE && |s.m[x].entries| == SIZE && BitWf(s, x, j) && !(x == n && j == i)
    requires !(x == s.m[n].parent && j == s.m[n].index)
    ensures BitWf(SetBit(s, n, i, b), x, j)
  {
    OneReference(s, n, x, j);
  }

  lemma ClearStep(s: State, n: Node, i: nat)
    requires Shape(s) && ClearDue(s, n, i)
    ensures var s' := SetBit(s, n, i, false);
            if s.m[n].nr == SIZE && s.m[n].parent != null then ClearDue(s', s.m[n].parent, s.m[n].index) else Bits(s')
  {
    var s' := SetBit(s, n, i, false);
    FullParent(s, n);
    var p, q := s.m[n].parent, s.m[n].index;
    assert !s'.m[n].bm[i];
    assert NodeWf(s, n);
    CountBounds(s.m[n].entries);
    if s.m[n].nr != SIZE {
      var j :| 0 <= j < SIZE && s.m[n].entries[j].Nil?;
      assert BitWf(s, n, j) && s'.m[n].bm[j];
    }
    ClearElsewhere(s, n, i);
    if s.m[n].nr == SIZE && p != null {
      assert ClearDue(s', p, q);
    } else {
      forall x | x in s'.m ensures BitsWf(s', x) {}
    }
  }

  lemma ClearElsewhere(s: State, n: Node, i: nat)
    requires Shape(s) && ClearDue(s, n, i) && s.m[n].parent != n
    ensures var s' := SetBit(s, n, i, false);
            forall x, j | x in s'.m && 0 <= j < SIZE && !(x == s.m[n].parent && j == s.m[n].index) :: BitWf(s', x, j)
  {
    var s' := SetBit(s, n, i, false);
    forall x, j | x in s'.m && 0 <= j < SIZE && !(x == s.m[n].parent && j == s.m[n].index) ensures BitWf(s', x, j) {
      if x == n && j == i { OneReference(s, n, x, j); } else { BitElsewhere(s, n, i, false, x, j); }
    }
  }

  lemma SetStep(s: State, n: Node, i: nat)
    requires Shape(s) && SetDue(s, n, i)
    ensures var s' := SetBit(s, n, i, true);
            if s.m[n].parent != null && s.m[n].parent in s.m && s.m[n].index < |s.m[s.m[n].parent].bm| && !s.m[s.m[n].parent].bm[s.m[n].index]
            then SetDue(s', s.m[n].parent, s.m[n].index) else Bits(s')
  {
    var s' := SetBit(s, n, i, true);
    FullParent(s, n);
    var p, q := s.m[n].parent, s.m[n].index;
    assert s'.m[n].bm[i];
    SetElsewhere(s, n, i);
    if p != null && !s.m[p].bm[q] {
      assert SetDue(s', p, q);
    } else {
      forall x | x in s'.m ensures BitsWf(s', x) {}
    }
  }

  lemma SetElsewhere(s: State, n: Node, i: nat)
    requires Shape(s) && SetDue(s, n, i) && s.m[n].parent != n
    ensures var s' := SetBit(s, n, i, true);
            forall x, j | x in s'.m && 0 <= j < SIZE && !(x == s.m[n].parent && j == s.m[n].index) :: BitWf(s', x, j)
  {
    var s' := SetBit(s, n, i, true);
    forall x, j | x in s'.m && 0 <= j < SIZE && !(x == s.m[n].parent && j == s.m[n].index) ensures BitWf(s', x, j) {
      if x == n && j == i { OneReference(s, n, x, j); } else { BitElsewhere(s, n, i, true, x, j); }
    }
  }

  lemma PutPtrDue(s: State, n: Node, i: nat, p: nat)
    requires Shape(s) && Bits(s) && n in s.m && n.height == 0 && i < SIZE && |s.m[n].entries| == SIZE && s.m[n].entries[i].Nil?
    ensures if s.alloc then ClearDue(PutPtr(s, n, i, p), n, i) else Bits(PutPtr(s, n, i, p))
  {
    var s' := PutPtr(s, n, i, p);
    forall x | x in s.m ensures BitsWf(s, x) {}
    if s.alloc {
      forall x, j | x in s'.m && 0 <= j < SIZE && !(x == n && j == i) ensures BitWf(s', x, j) { assert BitWf(s, x, j); }
    }
  }

  /** A stored pointer leaves a leaf. */
  function TakePtr(s: State, n: Node, i: nat): State
    requires n in s.m && i < |s.m[n].entries| && s.m[n].nr > 0
  {
    s.(m := s.m[n := Emptied(s.m[n], i)])
  }

  lemma TakePtrDue(s: State, n: Node, i: nat)
    requires Shape(s) && Bits(s) && n in s.m && i < SIZE && |s.m[n].entries| == SIZE && s.m[n].nr > 0 && s.m[n].entries[i].Ptr?
    ensures if s.alloc then SetDue(TakePtr(s, n, i), n, i) else Bits(TakePtr(s, n, i))
  {
    var s' := TakePtr(s, n, i);
    forall x | x in s.m ensures BitsWf(s, x) {}
    if s.alloc {
      forall x, j | x in s'.m && 0 <= j < SIZE && !(x == n && j == i) ensures BitWf(s', x, j) { assert BitWf(s, x, j); }
    }
  }

  lemma TakePtrHere(s: State, n: Node, i: nat)
    requires n in s.m && NodeWf(s, n) && i < SIZE && s.m[n].entries[i].Ptr? && s.m[n].parent != n
    requires forall j | 0 <= j < SIZE :: s.m[n].entries[j] != Child(n)
    ensures s.m[n].nr > 0 && NodeWf(TakePtr(s, n, i), n)
  {
    EmptiedSized(s.m[n], i);
    var s' := TakePtr(s, n, i);
    assert ParentWf(s', n);
    forall j | 0 <= j < SIZE ensures EntryWf(s', n, j) { assert EntryWf(s, n, j); }
  }

  lemma TakePtrShape(s: State, n: Node, i: nat)
    requires Shape(s) && n in s.m && i < SIZE && |s.m[n].entries| == SIZE && s.m[n].entries[i].Ptr?
    ensures s.m[n].nr > 0 && Shape(TakePtr(s, n, i))
  {
    NotSelf(s, n, n);
    TakePtrHere(s, n, i);
    var s' := TakePtr(s, n, i);
    forall x | x in s'.m && x != n ensures NodeWf(s', x) {
      TakePtrOther(s, n, i, x);
    }
  }

  lemma TakePtrOther(s: State, n: Node, i: nat, x: Node)
    requires Shape(s) && n in s.m && x in s.m && x != n && s.m[n].nr > 0
    requires i < SIZE && |s.m[n].entries| == SIZE && s.m[n].entries[i].Ptr?
    ensures NodeWf(TakePtr(s, n, i), x)
  {
    ParentEntry(s, n, i, x);
    NodeKept(s, TakePtr(s, n, i), x);
  }

  lemma ParentEntry(s: State, n: Node, i: nat, x: Node)
    requires Shape(s) && n in s.m && x in s.m && i < |s.m[n].entries| && s.m[n].entries[i].Ptr?
    ensures NodeWf(s, x) && (s.m[x].parent == n ==> s.m[x].index != i)
  {
    assert NodeWf(s, x);
  }

  lemma TakenBound(s: State, c: map<nat, nat>, n: Node, key: nat, x: Node, k: nat, q: nat)
    requires Shape(s) && Models(s, c) && s.height > 0 && OnPath(s, n, key) && n.height == 0
    requires |s.m[n].entries| == SIZE && s.m[n].nr > 0 && x in s.m && Binds(TakePtr(s, n, key % SIZE), x, k, q)
    ensures k in c && c[k] == q && k != key
  {
    assert key / Pow(1) == key / SIZE;
    assert Binds(s, x, k, q);
    if k == key { Unique(s, x, n); }
  }

  lemma StillBound(s: State, n: Node, key: nat, x: Node, k: nat, q: nat)
    requires OnPath(s, n, key) && n.height == 0 && |s.m[n].entries| == SIZE && s.m[n].nr > 0
    requires x in s.m && Binds(s, x, k, q) && k != key
    ensures Binds(TakePtr(s, n, key % SIZE), x, k, q)
  {
    assert key / Pow(1) == key / SIZE;
    assert k == k / SIZE * SIZE + k % SIZE && key == key / SIZE * SIZE + key % SIZE;
  }

  lemma TakePtrModels(s: State, c: map<nat, nat>, n: Node, key: nat)
    requires Shape(s) && Models(s, c) && s.height > 0 && OnPath(s, n, key) && n.height == 0
    requires |s.m[n].entries| == SIZE && s.m[n].entries[key % SIZE].Ptr? && s.m[n].nr > 0
    ensures key in c && c[key] == s.m[n].entries[key % SIZE].p && Models(TakePtr(s, n, key % SIZE), c - {key})
  {
    var s', c' := TakePtr(s, n, key % SIZE), c - {key};
    assert key / Pow(1) == key / SIZE;
    assert Binds(s, n, key, s.m[n].entries[key % SIZE].p);
    forall x, k: nat, q: nat | x in s'.m && Binds(s', x, k, q) ensures k in c' && c'[k] == q {
      TakenBound(s, c, n, key, x, k, q);
    }
    forall k | k in c' ensures exists x | x in s'.m :: Binds(s', x, k, c'[k]) {
      var x :| x in s.m && Binds(s, x, k, c[k]);
      StillBound(s, n, key, x, k, c[k]);
    }
  }

  // ---------------------------------------------------------------- no useless node

  /** Only x can be without entries. */
  ghost predicate NoEmptyBut(s: State, x: Node?) { forall n | n in s.m && n != x :: s.m[n].nr > 0 }

  ghost predicate RootNeeded(s: State) { s.root.Child? && s.root.node in s.m ==> !CanShrink(s, s.root.node) }

  /** The tree has no node without entry, and its root is needed. */
  ghost predicate Tight(s: State) { NoEmptyBut(s, null) && RootNeeded(s) && (s.height > 0 ==> s.root.Child?) }

  /** What insertion keeps while it goes down: only the node reached can be empty, and only if it is the root can the
      root be unneeded, as long as it is about to get another entry. */
  ghost predicate Going(s: State, n: Node, key: nat) {
    && n in s.m && NoEmptyBut(s, n) && s.root.Child? && s.root.node in s.m
    && (s.root == Child(n) ==>
          (s.m[n].nr == 0 ==> Digit(key, n.height) != 0) && (RootNeeded(s) || Digit(key, n.height) != 0))
    && (s.root != Child(n) ==> RootNeeded(s))
  }

  /** Another entry in a root, or a first one that is not entry 0, makes it needed. */
  lemma FilledNeeded(x: Cell, i: nat, e: Entry)
    requires Sized(x) && i < SIZE && x.entries[i].Nil? && !e.Nil? && (x.nr > 0 || i != 0)
    ensures var y := Filled(x, i, e); y.nr != 1 || y.entries[0].Nil?
  {
    CountBounds(x.entries);
  }

  /** A root with an entry that is not entry 0 is needed. */
  lemma OtherNeeded(x: Cell, i: nat)
    requires Sized(x) && 0 < i < SIZE && !x.entries[i].Nil?
    ensures x.nr != 1 || x.entries[0].Nil?
  {
    if !x.entries[0].Nil? { CountOne(x.entries, 0, i); }
  }

  lemma GoingDown(s: State, n: Node, key: nat)
    requires Shape(s) && Going(s, n, key) && OnPath(s, n, key) && |s.m[n].entries| == SIZE
    requires s.m[n].entries[Digit(key, n.height)].Child?
    ensures Going(s, s.m[n].entries[Digit(key, n.height)].node, key)
  {
    var i := Digit(key, n.height);
    assert NodeWf(s, n) && EntryWf(s, n, i);
    CountBounds(s.m[n].entries);
    if i != 0 { OtherNeeded(s.m[n], i); }
    assert NodeWf(s, s.root.node);
  }

  lemma GoingAttach(s: State, n: Node, key: nat, k: Node)
    requires Shape(s) && Going(s, n, key) && CanAttach(s, n, Digit(key, n.height), k)
    ensures Going(Attach(s, n, Digit(key, n.height), k), k, key)
  {
    var i := Digit(key, n.height);
    assert NodeWf(s, n);
    if s.m[n].nr > 0 || i != 0 { FilledNeeded(s.m[n], i, Child(k)); }
  }

  lemma GoingPut(s: State, n: Node, key: nat, p: nat)
    requires Shape(s) && Going(s, n, key) && n.height == 0 && |s.m[n].entries| == SIZE && s.m[n].entries[Digit(key, 0)].Nil?
    requires s.height > 0
    ensures Tight(PutPtr(s, n, Digit(key, 0), p))
  {
    assert NodeWf(s, n);
    if s.m[n].nr > 0 || Digit(key, 0) != 0 { FilledNeeded(s.m[n], Digit(key, 0), Ptr(p)); }
  }

  // ---------------------------------------------------------------- the whole

  /** The tree is well formed and holds the bindings of c. */
  ghost predicate Sound(s: State, c: map<nat, nat>) { Shape(s) && Models(s, c) && Bits(s) }

  lemma AttachSound(s: State, c: map<nat, nat>, n: Node, key: nat, k: Node)
    requires Sound(s, c) && Going(s, n, key) && OnPath(s, n, key) && CanAttach(s, n, Digit(key, n.height), k) && s.height > 0
    ensures var s' := Attach(s, n, Digit(key, n.height), k);
            Sound(s', c) && Going(s', k, key) && OnPath(s', k, key)
  {
    hide Shape, Models, Bits, Going;
    var i := Digit(key, n.height);
    AttachShape(s, n, i, k);
    AttachModels(s, c, n, i, k);
    AttachBits(s, n, i, k);
    GoingAttach(s, n, key, k);
    DigitStep(key, n.height);
  }

  lemma AttachRootSound(s: State, c: map<nat, nat>, k: Node, i: nat, key: nat)
    requires Sound(s, c) && s.root.Nil? && s.height == k.height + 1 && HeightFor(key, s.height)
    ensures Sound(AttachRoot(s, k, i), c) && Going(AttachRoot(s, k, i), k, key) && OnPath(AttachRoot(s, k, i), k, key)
  {
    TopDigit(key, s.height);
    AttachRootShape(s, c, k, i);
    AttachRootBits(s, k, i);
  }

  lemma DetachSound(s: State, c: map<nat, nat>, n: Node, p: Node)
    requires Sound(s, c) && CanDetach(s, n, p) && NoEmptyBut(s, n)
    requires s.root.Child? && s.root.node in s.m && (s.root != Child(n) ==> s.root == Child(p) || RootNeeded(s))
    ensures p in s.m && s.m[n].index < |s.m[p].entries| && s.m[p].nr > 0 && s.height > 0 && p != n
    ensures s.m[p].entries[s.m[n].index] == Child(n)
    ensures var s' := Detach(s, n, p, s.m[n].index);
            Sound(s', c) && NoEmptyBut(s', p) && s'.root == s.root && s'.root.node in s'.m && (s'.root != Child(p) ==> RootNeeded(s'))
  {
    HeightPositive(s, n);
    DetachReady(s, n, p);
    DetachShape(s, n, p);
    DetachModels(s, c, n, p);
    DetachBits(s, n, p);
    RootParent(s);
    hide Shape, Models, Bits;
  }

  lemma HeightPositive(s: State, n: Node)
    requires Shape(s) && n in s.m
    ensures s.height > 0
  {
    assert NodeWf(s, n);
  }

  lemma RootParent(s: State)
    requires Shape(s) && s.root.Child?
    ensures s.root.node in s.m && s.m[s.root.node].parent == null
  {}

  lemma ClearSound(s: State, c: map<nat, nat>, r: Node)
    requires Sound(s, c) && s.root == Child(r) && r in s.m && s.m[r].nr == 0
    ensures Sound(Cleared(s), c) && Tight(Cleared(s)) && s.m.Keys == {r} && c == map[]
  {
    OnlyRoot(s, c, r);
  }

  lemma ShrinkSound(s: State, c: map<nat, nat>, r: Node)
    requires Sound(s, c) && CanShrink(s, r) && NoEmptyBut(s, null)
    ensures var e := s.m[r].entries[0];
            && (e.Child? ==> e.node in s.m && e.node != r) && (e.Child? <==> s.height > 1)
            && Sound(Shrunk(s, r, e), c) && NoEmptyBut(Shrunk(s, r, e), null) && Shrunk(s, r, e).m.Keys == s.m.Keys - {r}
  {
    ShrinkReady(s, r);
    ShrinkShape(s, r);
    ShrinkModels(s, c, r);
    ShrinkBits(s, r);
    hide Shape, Models, Bits;
  }

  lemma RootNode(s: State, c: map<nat, nat>)
    requires Sound(s, c) && !s.root.Nil? && s.height > 0
    ensures s.root.Child? && s.root.node in s.m && |s.m[s.root.node].entries| == SIZE
  {
    if s.root.Child? { assert NodeWf(s, s.root.node); }
  }

  lemma NodeFacts(s: State, c: map<nat, nat>, n: Node)
    requires Sound(s, c) && n in s.m
    ensures |s.m[n].entries| == SIZE && |s.m[n].bm| == SIZE && n.height < s.height
    ensures s.m[n].parent == null <==> s.root == Child(n)
    ensures s.m[n].parent != null ==>
      s.m[n].parent in s.m && s.m[n].parent != n && s.m[n].parent.height == n.height + 1 && s.m[n].index < SIZE
  {
    assert NodeWf(s, n);
    FullParent(s, n);
  }

  lemma NotEmpty(s: State, n: Node)
    requires NoEmptyBut(s, n) && n in s.m && s.m[n].nr != 0
    ensures NoEmptyBut(s, null)
    ensures s.root.Child? && s.root.node in s.m && RootNeeded(s) ==> Tight(s)
  {}

  /** Only bitmaps differ. */
  ghost predicate SameButBits(s: State, s': State) {
    && s'.m.Keys == s.m.Keys && s'.(m := s.m) == s
    && forall n | n in s.m :: |s'.m[n].bm| == |s.m[n].bm| && s'.m[n].(bm := s.m[n].bm) == s.m[n]
  }

  lemma SameSetBit(s: State, s': State, n: Node, i: nat, b: bool)
    requires SameButBits(s, s') && n in s'.m && i < |s'.m[n].bm|
    ensures SameButBits(s, SetBit(s', n, i, b))
  {}

  lemma SameTight(s: State, s': State)
    requires SameButBits(s, s') && Tight(s)
    ensures Tight(s')
  {}

  lemma ClearRound(s: State, c: map<nat, nat>, n: Node, i: nat)
    requires Shape(s) && Models(s, c) && ClearDue(s, n, i)
    ensures var s' := SetBit(s, n, i, false);
            && Shape(s') && Models(s', c)
            && if s.m[n].nr == SIZE && s.m[n].parent != null then ClearDue(s', s.m[n].parent, s.m[n].index) else Bits(s')
    ensures s.m[n].parent != null ==> s.m[n].parent in s.m && s.m[n].parent.height == n.height + 1
    ensures n.height < s.height
  {
    hide Models;
    SetBitShape(s, c, n, i, false);
    FullParent(s, n);
    ClearStep(s, n, i);
  }

  lemma TakeSame(s: State, l: Node, i0: nat, n: Node)
    requires l in s.m && i0 < |s.m[l].entries| && s.m[l].nr > 0 && n in s.m
    ensures var v := TakePtr(s, l, i0);
            v.m.Keys == s.m.Keys && v.m[n].parent == s.m[n].parent && v.m[n].index == s.m[n].index && v.m[n].bm == s.m[n].bm
  {}

  lemma TakeCommutes(s: State, l: Node, i0: nat, n: Node, i: nat, b: bool)
    requires l in s.m && i0 < |s.m[l].entries| && s.m[l].nr > 0 && n in s.m && i < |s.m[n].bm|
    requires n in TakePtr(s, l, i0).m && i < |TakePtr(s, l, i0).m[n].bm|
    ensures l in SetBit(s, n, i, b).m && SetBit(s, n, i, b).m[l].entries == s.m[l].entries && SetBit(s, n, i, b).m[l].nr == s.m[l].nr
    ensures TakePtr(SetBit(s, n, i, b), l, i0) == SetBit(TakePtr(s, l, i0), n, i, b)
  {
    assert TakePtr(SetBit(s, n, i, b), l, i0).m == SetBit(TakePtr(s, l, i0), n, i, b).m;
  }

  lemma DueFacts(s: State, n: Node, i: nat)
    ensures ClearDue(s, n, i) ==> n in s.m && |s.m[n].bm| == SIZE && i < SIZE
    ensures SetDue(s, n, i) ==> n in s.m && |s.m[n].bm| == SIZE && i < SIZE
    ensures SetDue(s, n, i) ==> forall x | x in s.m :: |s.m[x].bm| == SIZE
  {}

  /** The state with the pointer at entry i of l taken away, whose bitmaps are being brought up to date. */
  lemma SetRound(s: State, c: map<nat, nat>, l: Node, i0: nat, n: Node, i: nat)
    requires Shape(s) && Models(s, c) && l in s.m && i0 < SIZE && |s.m[l].entries| == SIZE && s.m[l].entries[i0].Ptr? && s.m[l].nr > 0
    requires SetDue(TakePtr(s, l, i0), n, i)
    ensures n in s.m && i < |s.m[n].bm| && l in SetBit(s, n, i, true).m && n.height < s.height
    ensures SetBit(s, n, i, true).m[l].entries == s.m[l].entries && SetBit(s, n, i, true).m[l].nr == s.m[l].nr
    ensures s.m[n].parent != null ==>
      s.m[n].parent in s.m && s.m[n].parent.height == n.height + 1 && s.m[n].parent != n && s.m[n].index < |s.m[s.m[n].parent].bm|
    ensures var s' := SetBit(s, n, i, true);
            && Shape(s') && Models(s', c)
            && if s.m[n].parent != null && !s.m[s.m[n].parent].bm[s.m[n].index]
               then SetDue(TakePtr(s', l, i0), s.m[n].parent, s.m[n].index) else Bits(TakePtr(s', l, i0))
  {
    hide Shape, Models, SetDue, TakePtr, SetBit, Bits;
    var v := TakePtr(s, l, i0);
    TakePtrShape(s, l, i0);
    DueFacts(v, n, i);
    TakeSame(s, l, i0, l);
    TakeSame(s, l, i0, n);
    FullParent(s, n);
    if s.m[n].parent != null { TakeSame(s, l, i0, s.m[n].parent); }
    SetStep(v, n, i);
    SetBitShape(s, c, n, i, true);
    TakeCommutes(s, l, i0, n, i, true);
  }

  lemma GrowSound(s: State, c: map<nat, nat>, k: Node, i: nat, bm: seq<bool>)
    requires Sound(s, c) && CanGrow(s, k, bm) && GrownBm(s, bm) && NoEmptyBut(s, null)
    ensures s.root.Child? ==> s.root.node in s.m && s.root.node != k
    ensures s.root.Ptr? ==> s.height == 0
    ensures Sound(Grown(s, k, i, bm), c) && NoEmptyBut(Grown(s, k, i, bm), null)
  {
    GrowShape(s, k, i, bm);
    GrowModels(s, c, k, i, bm);
    GrowBits(s, k, i, bm);
    hide Shape, Models, Bits;
  }

  lemma RootKind(s: State, c: map<nat, nat>)
    requires Sound(s, c)
    ensures s.height == 0 ==> !s.root.Child? && c == (if s.root.Ptr? then map[0 := s.root.p] else map[])
    ensures s.root.Child? ==> s.height > 0 && s.root.node in s.m
    ensures s.root.Nil? ==> c == map[] && s.m == map[]
    ensures s.root.Ptr? ==> s.height == 0
    ensures s.height <= 11
  {
    if s.root.Child? { assert NodeWf(s, s.root.node); }
    if s.root.Nil? && s.height > 0 { NoLeafNoKey(s, c); }
  }

  /** An empty tree may be given any height. */
  lemma RaisedEmpty(s: State, c: map<nat, nat>, h: nat)
    requires Sound(s, c) && s.root.Nil? && h <= 11
    ensures Sound(s.(height := h), c) && NoEmptyBut(s.(height := h), null)
  {
    RootKind(s, c);
  }

  /** The first height at which a key fits. */
  ghost predicate HeightFor(key: nat, h: nat) { 0 < h <= 11 && key / Pow(h) == 0 && key / Pow(h - 1) != 0 }

  lemma TopDigit(key: nat, h: nat)
    requires HeightFor(key, h)
    ensures Digit(key, h - 1) != 0
  {
    DigitStep(key, h - 1);
  }

  lemma GrownEither(s: State, s': State, c: map<nat, nat>, k: Node, i: nat)
    requires Sound(s, c) && NoEmptyBut(s, null) && !s.root.Nil? && k !in s.m && k.height == s.height && s.height < 11
    requires s.root.Child? ==> s.root.node in s.m
    requires exists bm :: GrownBm(s, bm) && s' == Grown(s, k, i, bm)
    ensures Sound(s', c) && NoEmptyBut(s', null)
  {
    hide Sound, NoEmptyBut;
    var bm :| GrownBm(s, bm) && s' == Grown(s, k, i, bm);
    assert |bm| == SIZE;
    GrowSound(s, c, k, i, bm);
  }

  lemma NewHeight(key: nat, h: nat)
    requires key < KEYS && 0 < h <= 11
    ensures key > MaxKey(h) ==> h < 11 && key / Pow(h) != 0
    ensures key <= MaxKey(h) ==> key / Pow(h) == 0
  {
    MaxKeyFits(key, h);
    PowTop();
  }

  lemma TightParts(s: State)
    ensures Tight(s) ==> NoEmptyBut(s, null)
  {}

  /** A slot of the tree where key is bound. */
  datatype Slot = NoSlot | RootSlot | NodeSlot(node: Node, index: nat)

  ghost predicate SlotOf(s: State, slot: Slot, key: nat) {
    match slot
    case NoSlot => false
    case RootSlot => s.height == 0 && key == 0 && s.root.Ptr?
    case NodeSlot(n, i) =>
      && s.height > 0 && OnPath(s, n, key) && n.height == 0 && i == key % SIZE
      && |s.m[n].entries| == SIZE && s.m[n].entries[i].Ptr?
  }

  /** What the search of a key reads at a node on its path. */
  lemma Visit(s: State, c: map<nat, nat>, n: Node, key: nat)
    requires Sound(s, c) && OnPath(s, n, key)
    ensures |s.m[n].entries| == SIZE && s.height > 0
    ensures var e := s.m[n].entries[Digit(key, n.height)];
            && (e.Child? ==> n.height > 0 && OnPath(s, e.node, key) && e.node.height + 1 == n.height)
            && (e.Ptr? ==> n.height == 0 && key in c && c[key] == e.p && SlotOf(s, NodeSlot(n, key % SIZE), key))
            && (e.Nil? ==> key !in c)
    ensures n.height == 0 ==> Digit(key, 0) == key % SIZE
  {
    HeightPositive(s, n);
    PathDown(s, n, key);
    var e := s.m[n].entries[Digit(key, n.height)];
    assert n.height == 0 ==> Digit(key, 0) == key % SIZE;
    if e.Nil? { Absent(s, c, n, key); }
    if e.Ptr? { assert Binds(s, n, key, e.p); }
  }

  lemma VisitStart(s: State, c: map<nat, nat>, key: nat)
    requires Sound(s, c) && key < KEYS
    ensures key > MaxKey(s.height) ==> key !in c && s.height < 11
    ensures key <= MaxKey(s.height) && s.root.Child? ==> OnPath(s, s.root.node, key) && s.root.node.height + 1 == s.height
    ensures key <= MaxKey(s.height) && s.height == 0 ==> key == 0
  {
    RootKind(s, c);
    MaxKeyFits(key, s.height);
    PowTop();
    if key in c { KeyFits(s, c, key); }
    if key <= MaxKey(s.height) && s.root.Child? { PathStart(s, key); }
  }

  lemma PutSound(s: State, c: map<nat, nat>, n: Node, key: nat, p: nat)
    requires Sound(s, c) && Going(s, n, key) && OnPath(s, n, key) && n.height == 0
    requires |s.m[n].entries| == SIZE && s.m[n].entries[key % SIZE].Nil?
    ensures var s' := PutPtr(s, n, key % SIZE, p);
            && Shape(s') && Models(s', c[key := p]) && Tight(s')
            && (if s.alloc then ClearDue(s', n, key % SIZE) else Bits(s')) && SlotOf(s', NodeSlot(n, key % SIZE), key)
  {
    hide Shape, Models, Bits, Going, Tight, ClearDue;
    assert Digit(key, 0) == key % SIZE;
    HeightPositive(s, n);
    PutPtrShape(s, n, key % SIZE, p);
    PutPtrModels(s, c, n, key, p);
    PutPtrDue(s, n, key % SIZE, p);
    GoingPut(s, n, key, p);
  }

  lemma SlotSame(s: State, s': State, slot: Slot, key: nat)
    requires SameButBits(s, s') && SlotOf(s, slot, key)
    ensures SlotOf(s', slot, key)
  {}

  lemma GoingStart(s: State, c: map<nat, nat>, key: nat)
    requires Sound(s, c) && NoEmptyBut(s, null) && s.root.Child? && s.root.node in s.m
    requires RootNeeded(s) || HeightFor(key, s.height)
    ensures Going(s, s.root.node, key)
  {
    assert NodeWf(s, s.root.node);
    if HeightFor(key, s.height) { TopDigit(key, s.height); }
  }

  lemma GoingVisit(s: State, c: map<nat, nat>, n: Node, key: nat)
    requires Sound(s, c) && Going(s, n, key) && OnPath(s, n, key)
    ensures |s.m[n].entries| == SIZE
    ensures var e := s.m[n].entries[Digit(key, n.height)];
            && (e.Child? ==> Going(s, e.node, key))
            && (e.Ptr? ==> Tight(s))
  {
    assert NodeWf(s, n);
    var i := Digit(key, n.height);
    HeightPositive(s, n);
    if s.m[n].entries[i].Child? { GoingDown(s, n, key); }
    if s.m[n].entries[i].Ptr? {
      CountBounds(s.m[n].entries);
      if i != 0 { OtherNeeded(s.m[n], i); }
    }
  }

  lemma GoingParts(s: State, n: Node, key: nat)
    requires Going(s, n, key)
    ensures n in s.m && NoEmptyBut(s, n) && s.root.Child? && s.root.node in s.m && (s.root != Child(n) ==> RootNeeded(s))
  {}

  function Stored(s: State, n: Node, i: nat, p: nat): State
    requires n in s.m && i < |s.m[n].entries|
  {
    s.(m := s.m[n := s.m[n].(entries := s.m[n].entries[i := Ptr(p)])])
  }

  lemma PathOf(s: State, slot: Slot, key: nat)
    requires SlotOf(s, slot, key) && slot.NodeSlot?
    ensures slot.node in s.m && slot.index == key % SIZE && slot.index < |s.m[slot.node].entries|
  {}

  lemma ReplacedRoot(s: State, s': State, c: map<nat, nat>, p: nat)
    requires Sound(s, c) && s.height == 0 && s.root.Ptr? && s' == s.(root := Ptr(p))
    ensures Sound(s', c[0 := p]) && Tight(s')
  {
    RootKind(s, c);
  }

  /** Replacing is taking a pointer away and putting another one at its place. */
  lemma ReplacedSound(s: State, c: map<nat, nat>, n: Node, key: nat, p: nat)
    requires Sound(s, c) && Tight(s) && SlotOf(s, NodeSlot(n, key % SIZE), key)
    ensures key in c && s.m[n].entries[key % SIZE] == Ptr(c[key])
    ensures Sound(Stored(s, n, key % SIZE, p), c[key := p]) && Tight(Stored(s, n, key % SIZE, p))
  {
    hide Shape, Models, Bits, Tight, TakePtr, PutPtr, Stored, OnPath;
    var i := key % SIZE;
    ReplaceFacts(s, n, key);
    TakePtrShape(s, n, i);
    TakePtrModels(s, c, n, key);
    var t := TakePtr(s, n, i);
    TakenFacts(s, n, key);
    PutPtrShape(t, n, i, p);
    PutPtrModels(t, c - {key}, n, key, p);
    assert (c - {key})[key := p] == c[key := p];
    StoredTwoSteps(s, n, i, p);
    StoredBits(s, n, i, p);
    StoredTight(s, n, i, p);
  }

  lemma ReplaceFacts(s: State, n: Node, key: nat)
    requires SlotOf(s, NodeSlot(n, key % SIZE), key)
    ensures n in s.m && n.height == 0 && OnPath(s, n, key) && |s.m[n].entries| == SIZE && s.m[n].entries[key % SIZE].Ptr? && s.height > 0
  {}

  lemma TakenFacts(s: State, n: Node, key: nat)
    requires OnPath(s, n, key) && |s.m[n].entries| == SIZE && s.m[n].nr > 0
    ensures var t := TakePtr(s, n, key % SIZE);
            OnPath(t, n, key) && n in t.m && |t.m[n].entries| == SIZE && t.m[n].entries[key % SIZE].Nil? && t.height == s.height
  {}

  lemma StoredTwoSteps(s: State, n: Node, i: nat, p: nat)
    requires n in s.m && i < |s.m[n].entries| && s.m[n].nr > 0
    ensures PutPtr(TakePtr(s, n, i), n, i, p) == Stored(s, n, i, p)
  {
    var e := s.m[n].entries;
    assert e[i := Nil][i := Ptr(p)] == e[i := Ptr(p)];
    assert PutPtr(TakePtr(s, n, i), n, i, p).m == Stored(s, n, i, p).m;
  }

  lemma StoredBits(s: State, n: Node, i: nat, p: nat)
    requires Bits(s) && n in s.m && i < SIZE && |s.m[n].entries| == SIZE && s.m[n].entries[i].Ptr?
    ensures Bits(Stored(s, n, i, p))
  {
    var s' := Stored(s, n, i, p);
    forall x | x in s'.m ensures BitsWf(s', x) {
      assert BitsWf(s, x);
      if s.alloc {
        forall j | 0 <= j < SIZE ensures BitWf(s', x, j) { assert BitWf(s, x, j); }
      }
    }
  }

  lemma StoredTight(s: State, n: Node, i: nat, p: nat)
    requires Tight(s) && n in s.m && i < |s.m[n].entries| && s.m[n].entries[i].Ptr?
    ensures Tight(Stored(s, n, i, p))
  {}

  lemma AttachReady(s: State, n: Node, key: nat, k: Node)
    requires OnPath(s, n, key) && |s.m[n].entries| == SIZE && s.m[n].entries[Digit(key, n.height)].Nil?
    requires k !in s.m && k.height + 1 == n.height
    ensures CanAttach(s, n, Digit(key, n.height), k) && n in s.base
  {}

  lemma TightMeans(s: State)
    requires Tight(s)
    ensures NoEmptyBut(s, null) && RootNeeded(s) && (s.height > 0 ==> s.root.Child?)
  {}

  lemma HeightForFits(key: nat, h: nat)
    requires HeightFor(key, h)
    ensures key / Pow(h) == 0 && h > 0
  {}

  lemma PathStartHere(s: State, c: map<nat, nat>, key: nat)
    requires Sound(s, c) && s.root.Child? && key / Pow(s.height) == 0
    ensures OnPath(s, s.root.node, key)
  {
    PathStart(s, key);
  }

  lemma PathHeight(s: State, c: map<nat, nat>)
    requires Sound(s, c) && s.root.Child? && s.root.node in s.m
    ensures s.root.node.height + 1 == s.height
  {
    assert NodeWf(s, s.root.node);
  }

  /** The first pointer of a tree, with key 0, is stored in its root. */
  lemma FirstPtr(s: State, s': State, c: map<nat, nat>, p: nat)
    requires Sound(s, c) && s.height == 0 && s.root.Nil? && s' == s.(root := Ptr(p))
    ensures Sound(s', c[0 := p]) && Tight(s') && c == map[] && SlotOf(s', RootSlot, 0)
  {
    RootKind(s, c);
  }

  lemma TakeSound(s: State, c: map<nat, nat>, n: Node, key: nat)
    requires Shape(s) && Models(s, c) && Tight(s) && SlotOf(s, NodeSlot(n, key % SIZE), key) && s.m[n].nr > 0
    requires Bits(TakePtr(s, n, key % SIZE))
    ensures var t := TakePtr(s, n, key % SIZE);
            && Sound(t, c - {key}) && NoEmptyBut(t, n) && t.root.Child? && t.root.node in t.m
            && (t.root != Child(n) ==> RootNeeded(t))
  {
    ReplaceFacts(s, n, key);
    TakePtrShape(s, n, key % SIZE);
    TakePtrModels(s, c, n, key);
  }

  lemma TakeReady(s: State, c: map<nat, nat>, n: Node, key: nat)
    requires Sound(s, c) && SlotOf(s, NodeSlot(n, key % SIZE), key)
    ensures n in s.m && |s.m[n].entries| == SIZE && s.m[n].entries[key % SIZE].Ptr? && s.m[n].nr > 0 && s.height > 0
    ensures key in c && s.m[n].entries[key % SIZE] == Ptr(c[key])
    ensures if s.alloc then SetDue(TakePtr(s, n, key % SIZE), n, key % SIZE) else Bits(TakePtr(s, n, key % SIZE))
  {
    ReplaceFacts(s, n, key);
    TakePtrShape(s, n, key % SIZE);
    TakePtrDue(s, n, key % SIZE);
    Visit(s, c, n, key);
  }

  lemma ClearedRoot(s: State, s': State, c: map<nat, nat>)
    requires Sound(s, c) && s.height == 0 && s' == s.(root := Nil)
    ensures Sound(s', c - {0}) && Tight(s') && c - {0} == map[]
  {
    RootKind(s, c);
  }

  // ---------------------------------------------------------------- key allocation

  /** What allocation keeps while it goes down. */
  ghost predicate Settled(s: State, n: Node) {
    && n in s.m && NoEmptyBut(s, n) && s.root.Child? && s.root.node in s.m && RootNeeded(s)
    && (s.root == Child(n) ==> s.m[n].nr > 0)
  }

  /** The first of the keys under a node. */
  ghost predicate KeyAt(s: State, n: Node, key: nat) { n in s.base && key == s.base[n] * Pow(n.height + 1) }

  lemma SettledRoot(s: State, c: map<nat, nat>)
    requires Sound(s, c) && Tight(s) && s.height > 0
    ensures s.root.Child? && s.root.node in s.m && Settled(s, s.root.node)
    ensures KeyAt(s, s.root.node, 0) && s.root.node.height + 1 == s.height
  {
    assert NodeWf(s, s.root.node);
  }

  lemma SettledGoing(s: State, n: Node, key: nat)
    requires Settled(s, n)
    ensures Going(s, n, key)
  {}

  lemma SettledParts(s: State, n: Node)
    requires Settled(s, n)
    ensures n in s.m && NoEmptyBut(s, n) && s.root.Child? && s.root.node in s.m && RootNeeded(s)
  {}

  lemma SettledDown(s: State, c: map<nat, nat>, n: Node, i: nat)
    requires Sound(s, c) && Settled(s, n) && i < SIZE && |s.m[n].entries| == SIZE && s.m[n].entries[i].Child?
    ensures Settled(s, s.m[n].entries[i].node)
  {
    assert NodeWf(s, n) && EntryWf(s, n, i);
    CountBounds(s.m[n].entries);
    assert NodeWf(s, s.root.node);
  }

  lemma SettledAttach(s: State, n: Node, key: nat, k: Node)
    requires Settled(s, n) && CanAttach(s, n, Digit(key, n.height), k) && Going(Attach(s, n, Digit(key, n.height), k), k, key)
    ensures var s' := Attach(s, n, Digit(key, n.height), k);
            Settled(s', k) && HasSet(s'.m[k].bm) && (key == (s.base[n] * SIZE + Digit(key, n.height)) * Pow(n.height) ==> KeyAt(s', k, key))
  {
    assert FULL[0];
  }

  /** The key of an entry, from the bits its node shares. */
  lemma AllocKeyAt(b: nat, h: nat, i: nat)
    requires i < SIZE
    ensures var key := b * Pow(h + 1) + i * Pow(h);
            key / Pow(h + 1) == b && Digit(key, h) == i && key == (b * SIZE + i) * Pow(h)
  {
    var p := Pow(h);
    var key := b * Pow(h + 1) + i * p;
    assert Pow(h + 1) == SIZE * p;
    AllocParts(b, p, i);
    DivUnique(key, SIZE * p, b, i * p);
    DivUnique(key, p, b * SIZE + i, 0);
    DivUnique(b * SIZE + i, SIZE, b, i);
  }

  lemma AllocParts(b: nat, p: nat, i: nat)
    requires p > 0 && i < SIZE
    ensures b * (SIZE * p) + i * p == (b * SIZE + i) * p && i * p < SIZE * p && b * (SIZE * p) == (SIZE * p) * b
    ensures (b * SIZE + i) * p == p * (b * SIZE + i)
  {
    Distribute(p, SIZE, b, i);
    Multiples(p, SIZE - i);
    Distribute(p, 1, SIZE - i, i);
  }

  /** A set bit leads to an empty entry, or to a node with a set bit. */
  lemma AllocEntry(s: State, n: Node, i: nat)
    requires Shape(s) && Bits(s) && s.alloc && n in s.m && i < |s.m[n].bm| && s.m[n].bm[i]
    ensures i < SIZE && |s.m[n].entries| == SIZE && n in s.base && !s.m[n].entries[i].Ptr?
    ensures n.height == 0 ==> s.m[n].entries[i].Nil?
    ensures var e := s.m[n].entries[i];
            e.Child? ==> e.node in s.m && e.node in s.base && s.base[e.node] == s.base[n] * SIZE + i && HasSet(s.m[e.node].bm)
                         && e.node.height + 1 == n.height
  {
    assert NodeWf(s, n) && BitsWf(s, n);
    assert EntryWf(s, n, i) && BitWf(s, n, i);
  }

  /** Entry i of a node is on the path of key k, and leads to an unbound key. */
  ghost predicate Allocatable(s: State, n: Node, k: nat, i: nat) {
    && i < SIZE && n in s.m && n in s.base && |s.m[n].entries| == SIZE
    && OnPath(s, n, k) && Digit(k, n.height) == i && k == (s.base[n] * SIZE + i) * Pow(n.height)
    && var e := s.m[n].entries[i];
    && !e.Ptr? && (n.height == 0 ==> e.Nil?)
    && (e.Child? ==> e.node in s.m && KeyAt(s, e.node, k) && HasSet(s.m[e.node].bm))
  }

  lemma AllocVisit(s: State, c: map<nat, nat>, n: Node, key: nat, i: nat)
    requires Sound(s, c) && s.alloc && n in s.m && KeyAt(s, n, key) && i < |s.m[n].bm| && s.m[n].bm[i]
    ensures Allocatable(s, n, key + i * Pow(n.height), i)
  {
    hide Shape, Bits, Models, HasSet, Pow, Digit;
    AllocEntry(s, n, i);
    AllocKeyAt(s.base[n], n.height, i);
  }

  /** One of the first 16 bits is set: at height 11, the keys below the other entries of the root exceed 64 bits. */
  ghost predicate HasLow(bm: seq<bool>) { exists j | 0 <= j < 16 && j < |bm| :: bm[j] }

  /** A key in 64 bits. */
  function Cut(key: nat): nat { key % KEYS }

  lemma CutFits(key: nat)
    ensures Cut(key) < KEYS && (Cut(key) == key <==> key < KEYS)
  {}

  lemma FullCut()
    ensures Cut(KEYS) == 0
  {}

  lemma CutAdd(key: nat, more: nat)
    ensures Cut(Cut(key) + more) == Cut(key + more)
  {}

  /** A key that is still h digits short, with the first of its top + 1 digits. */
  ghost predicate Spelt(full: nat, h: nat, top: nat, first: nat) {
    first * Pow(top) <= full && full + Pow(h) <= (first + 1) * Pow(top)
  }

  /** The key so far on the way down, and whether the root's entry on the way is one of the first 16. */
  ghost predicate Track(full: nat, h: nat, top: nat, first: nat, bm: seq<bool>) {
    if h == top + 1 then full == 0 else first < SIZE && Spelt(full, h, top, first) && (first < 16 <==> HasLow(bm))
  }

  lemma TrackNext(full: nat, h: nat, top: nat, first: nat, bm: seq<bool>, i: nat) returns (next: nat)
    requires Track(full, h, top, first, bm) && 0 < h <= top + 1 && i < SIZE
    requires h == top + 1 ==> i < |bm| && bm[i] && forall j | 0 <= j < i :: !bm[j]
    ensures Track(full + i * Pow(h - 1), h - 1, top, next, bm)
  {
    hide Spelt, Pow;
    if h == top + 1 {
      SpeltFirst(top, i);
      next := i;
    } else {
      SpeltNext(full, h, top, first, i);
      next := first;
    }
  }

  lemma TrackStart(top: nat, bm: seq<bool>)
    ensures Track(0, top + 1, top, 0, bm)
  {}

  lemma TrackFits(full: nat, top: nat, first: nat, bm: seq<bool>)
    requires Track(full, 0, top, first, bm) && top <= 10
    ensures full < KEYS <==> top < 10 || HasLow(bm)
  {
    hide Spelt, HasLow;
    SpeltFits(full, top, first);
  }

  lemma SpeltFirst(top: nat, first: nat)
    ensures Spelt(first * Pow(top), top, top, first)
  {
    assert (first + 1) * Pow(top) == first * Pow(top) + Pow(top);
  }

  lemma SpeltNext(full: nat, h: nat, top: nat, first: nat, i: nat)
    requires Spelt(full, h, top, first) && h > 0 && i < SIZE
    ensures Spelt(full + i * Pow(h - 1), h - 1, top, first)
  {
    assert Pow(h) == SIZE * Pow(h - 1);
    MulMono(Pow(h - 1), i + 1, SIZE);
    assert (i + 1) * Pow(h - 1) == i * Pow(h - 1) + Pow(h - 1);
  }

  /** A key fits in 64 bits, unless its first digit is the eleventh and at least 16. */
  lemma SpeltFits(full: nat, top: nat, first: nat)
    requires Spelt(full, 0, top, first) && top <= 10 && first < SIZE
    ensures full < KEYS <==> top < 10 || first < 16
  {
    PowTop();
    if top < 10 {
      PowMono(top + 1, 10);
      MulMono(Pow(top), first + 1, SIZE);
      assert Pow(top + 1) == SIZE * Pow(top);
    }
  }

  /** A tree that binds the key after the largest of a height is higher. */
  lemma NextKeyGrows(s: State, c: map<nat, nat>, h: nat)
    requires Sound(s, c) && h <= 10 && MaxKey(h) + 1 in c
    ensures s.height > h
  {
    hide Sound, Pow;
    RootKind(s, c);
    NextKey(h);
    VisitStart(s, c, MaxKey(h) + 1);
    if s.height <= h {
      PowMono(s.height, h);
    }
  }

  /** The first key that does not fit. */
  lemma NextKey(h: nat)
    ensures MaxKey(h) < KEYS
    ensures if h <= 10 then MaxKey(h) + 1 < KEYS && MaxKey(h) + 1 == Pow(h) else MaxKey(h) + 1 == KEYS
  {
    PowTop();
    if h <= 10 {
      PowMono(h, 10);
    }
  }

  // ---------------------------------------------------------------- walking

  datatype Iter = Iter(node: Node?, key: nat)

  /** The iterator has yielded every key below pos. */
  ghost predicate IterAt(s: State, iter: Iter, pos: nat) {
    if iter.key == KEYS - 1 && iter.node == null then pos == 0
    else
      && pos == iter.key + 1 <= KEYS
      && if s.height == 0 then iter.node == null else iter.node != null && OnPath(s, iter.node, iter.key) && iter.node.height == 0
  }

  /** No bound key is in a range. */
  ghost predicate Gap(c: map<nat, nat>, from: nat, to: nat) { forall k | k in c :: !(from <= k < to) }

  /** The first key at entry j of the node of height h on the path of key, or after that node. */
  function KeyUp(key: nat, h: nat, j: nat): nat
    requires Digit(key, h) <= j <= SIZE
  {
    (key / Pow(h) + (j - Digit(key, h))) * Pow(h)
  }

  lemma DivMono(a: nat, b: nat, p: nat)
    requires a <= b && p > 0
    ensures a / p <= b / p
  {
    Euclid(a, p);
    Euclid(b, p);
    Multiples(p, a / p - b / p);
    Distribute(p, 1, b / p, a / p - b / p);
  }

  lemma DivLess(k: nat, q: nat, p: nat)
    requires p > 0 && k < q * p
    ensures k / p < q
  {
    Euclid(k, p);
    DivBelow(k / p, q, p, k % p);
  }

  lemma DivBelow(x: nat, q: nat, p: nat, r: nat)
    requires p * x + r < q * p
    ensures x < q
  {
    MulMono(p, q, x);
  }

  lemma MulMono(p: nat, a: nat, b: nat)
    ensures a <= b ==> p * a <= p * b && p * a == a * p
  {}

  lemma KeyUpDiv(key: nat, h: nat, j: nat)
    requires Digit(key, h) <= j <= SIZE
    ensures KeyUp(key, h, j) / Pow(h) == key / Pow(h) + (j - Digit(key, h))
  {
    var q := key / Pow(h) + (j - Digit(key, h));
    UpProduct(Pow(h), q);
    DivUnique(q * Pow(h), Pow(h), q, 0);
  }

  lemma KeyUpParts(key: nat, h: nat, j: nat)
    requires Digit(key, h) <= j <= SIZE
    ensures Digit(key, h) < j ==> key < KeyUp(key, h, j)
    ensures j < SIZE ==> KeyUp(key, h, j) / Pow(h + 1) == key / Pow(h + 1) && Digit(KeyUp(key, h, j), h) == j
  {
    hide Pow, KeyUp;
    KeyUpDiv(key, h, j);
    var u, q := KeyUp(key, h, j), key / Pow(h) + (j - Digit(key, h));
    if Digit(key, h) < j && u <= key { DivMono(u, key, Pow(h)); }
    DigitStep(key, h);
    if j < SIZE {
      DigitStep(u, h);
      DivUnique(q, SIZE, key / Pow(h + 1), j);
    }
  }

  lemma UpProduct(p: nat, q: nat)
    ensures q * p == p * q && q * p >= 0
  {}

  /** The keys of empty entries of a node are not bound. */
  lemma GapNode(s: State, c: map<nat, nat>, n: Node, key: nat, j: nat)
    requires Sound(s, c) && OnPath(s, n, key) && |s.m[n].entries| == SIZE && Digit(key, n.height) <= j <= SIZE
    requires forall i | Digit(key, n.height) <= i < j :: s.m[n].entries[i].Nil?
    ensures Gap(c, key, KeyUp(key, n.height, j))
  {
    var h := n.height;
    HeightPositive(s, n);
    forall k | k in c ensures !(key <= k < KeyUp(key, h, j)) {
      if key <= k < KeyUp(key, h, j) {
        GapKey(key, h, j, k);
        Absent(s, c, n, k);
      }
    }
  }

  lemma GapKey(key: nat, h: nat, j: nat, k: nat)
    requires Digit(key, h) <= j <= SIZE && key <= k < KeyUp(key, h, j)
    ensures k / Pow(h + 1) == key / Pow(h + 1) && Digit(key, h) <= Digit(k, h) < j
  {
    DivMono(key, k, Pow(h));
    DivLess(k, key / Pow(h) + (j - Digit(key, h)), Pow(h));
    DigitStep(key, h);
    DigitStep(k, h);
    DivUnique(k / Pow(h), SIZE, key / Pow(h + 1), k / Pow(h) - key / Pow(h + 1) * SIZE);
  }

  /** Where the search goes on at a node, from the first entry in use at or after the one of key. */
  lemma WalkVisit(s: State, c: map<nat, nat>, n: Node, key: nat, j: nat)
    requires Sound(s, c) && OnPath(s, n, key) && |s.m[n].entries| == SIZE && Digit(key, n.height) <= j <= SIZE
    requires forall i | Digit(key, n.height) <= i < j :: s.m[n].entries[i].Nil?
    requires j < SIZE ==> !s.m[n].entries[j].Nil?
    ensures var k := if j == Digit(key, n.height) then key else KeyUp(key, n.height, j);
            && key <= k && (j == SIZE ==> key < k) && Gap(c, key, k)
            && (j < SIZE ==> OnPath(s, n, k) && Digit(k, n.height) == j)
            && (j < SIZE ==> var e := s.m[n].entries[j];
                  && (e.Child? ==> n.height > 0 && OnPath(s, e.node, k) && e.node.height + 1 == n.height)
                  && (e.Ptr? ==> n.height == 0 && k in c && c[k] == e.p))
  {
    GapNode(s, c, n, key, j);
    KeyUpParts(key, n.height, j);
    var k := if j == Digit(key, n.height) then key else KeyUp(key, n.height, j);
    if j < SIZE { Visit(s, c, n, k); }
  }

  lemma GapJoin(c: map<nat, nat>, a: nat, b: nat, d: nat)
    requires Gap(c, a, b) && Gap(c, b, d)
    ensures Gap(c, a, d)
  {}

  /** k is the first bound key from pos on. */
  ghost predicate NextBound(c: map<nat, nat>, pos: nat, k: nat) { k in c && pos <= k && Gap(c, pos, k) }

  lemma WalkEnd(s: State, c: map<nat, nat>, pos: nat, key: nat)
    requires Sound(s, c) && Gap(c, pos, key) && key > MaxKey(s.height) && forall k | k in c :: k < KEYS
    ensures forall k | k in c :: k < pos
  {
    forall k | k in c ensures k < pos {
      KeyFits(s, c, k);
      MaxKeyFits(k, s.height);
    }
  }

  /** How many blocks of Pow(h) keys there are. */
  function Blocks(h: nat): nat
    requires h <= 10
  {
    16 * Pow(10 - h)
  }

  lemma {:induction false} PowSum(a: nat, b: nat)
    ensures Pow(a + b) == Pow(a) * Pow(b)
  {
    if a == 0 {
      assert Pow(0) == 1;
    } else {
      PowSum(a - 1, b);
      TimesSize(Pow(a - 1), Pow(b));
    }
  }

  lemma TimesSize(x: nat, y: nat)
    ensures SIZE * (x * y) == (SIZE * x) * y
  {}

  lemma BlocksWhole(h: nat)
    requires h <= 10
    ensures Blocks(h) * Pow(h) == KEYS
  {
    PowSum(10 - h, h);
    PowTop();
    assert 16 * (Pow(10 - h) * Pow(h)) == Blocks(h) * Pow(h);
  }

  /** The block that a key is in. */
  function Block(key: nat, h: nat): nat { key / Pow(h) }

  lemma BlockDigit(key: nat, h: nat)
    ensures Block(key, h) == Block(key, h + 1) * SIZE + Digit(key, h)
  {
    DigitStep(key, h);
  }

  lemma KeyUpBlock(key: nat, h: nat, j: nat)
    requires Digit(key, h) <= j <= SIZE
    ensures KeyUp(key, h, j) == (Block(key, h) + (j - Digit(key, h))) * Pow(h)
  {}

  lemma BlockIn(key: nat, h: nat)
    requires key < KEYS && h <= 10
    ensures Block(key, h) < Blocks(h)
  {
    BlocksWhole(h);
    DivLess(key, Blocks(h), Pow(h));
  }

  lemma TopBlocks()
    ensures Blocks(10) == 16
  {
    assert Pow(0) == 1;
  }

  lemma BlocksStep(h: nat)
    requires h < 10
    ensures Blocks(h) == Blocks(h + 1) * SIZE
  {
    assert Pow(10 - h) == SIZE * Pow(10 - h - 1);
  }

  /** Going up from a node below the root of a tree of the full height leads at most to the end of the keys. */
  lemma KeyUpFits(key: nat, h: nat, j: nat)
    requires key < KEYS && h <= 10 && Digit(key, h) <= j <= SIZE && (h == 10 ==> j < 16)
    ensures KeyUp(key, h, j) <= KEYS && (j < SIZE ==> KeyUp(key, h, j) < KEYS)
  {
    hide Pow, Blocks, Digit, Block, KeyUp;
    if h < 10 {
      BlockDigit(key, h);
      BlocksStep(h);
      BlockIn(key, h + 1);
    } else {
      TopBlocks();
      LastDigit(key);
    }
    KeyUpBlock(key, h, j);
    BlocksWhole(h);
    BlockEnd(Block(key, h) + (j - Digit(key, h)), Blocks(h), Pow(h));
  }

  lemma SmallDigit(n: nat)
    requires n < 16
    ensures n % SIZE == n
  {}

  lemma BlockEnd(m: nat, n: nat, p: nat)
    requires m <= n && p > 0
    ensures m * p <= n * p && (m < n ==> m * p < n * p)
  {
    MulMono(p, m, n);
    if m < n {
      MulMono(p, m + 1, n);
      assert (m + 1) * p == m * p + p;
    }
  }

  /** The root of a tree of the full height has an entry in use at the end of the keys, or at least after a key. */
  ghost predicate Reaches(s: State, c: map<nat, nat>, pos: nat) {
    s.height == 11 ==> LastUsed(s) || exists k | k in c :: pos <= k
  }

  ghost predicate LastUsed(s: State) {
    && s.root.Child? && s.root.node in s.m && |s.m[s.root.node].entries| == SIZE
    && !s.m[s.root.node].entries[15].Nil?
  }

  /** There, the search at the root does not run off its entries. */
  lemma RootFinds(s: State, c: map<nat, nat>, pos: nat, key: nat, j: nat)
    requires Sound(s, c) && s.height == 11 && s.root.Child? && s.root.node in s.m && s.root.node.height == 10
    requires Reaches(s, c, pos) && Gap(c, pos, key) && key < KEYS && forall k | k in c :: k < KEYS
    requires |s.m[s.root.node].entries| == SIZE && Digit(key, 10) <= j <= SIZE
    requires forall i | Digit(key, 10) <= i < j :: s.m[s.root.node].entries[i].Nil?
    ensures j < 16
  {
    hide Sound, OnPath, Pow;
    LastDigit(key);
    if !LastUsed(s) {
      var k :| k in c && pos <= k;
      LastDigit(k);
      DivMono(key, k, Pow(10));
      MaxKeyFits(k, 11);
      PathStartHere(s, c, k);
      Visit(s, c, s.root.node, k);
    }
  }

  lemma LastDigit(key: nat)
    requires key < KEYS
    ensures Digit(key, 10) == Block(key, 10) < 16
  {
    hide Pow;
    BlockIn(key, 10);
    TopBlocks();
    SmallDigit(Block(key, 10));
  }

  datatype Error = Ok | Busy | NoMemory

  class RdxTree {
    const alloc: bool
    var height: nat
    var root: Entry
    /** How many nodes can still be allocated. */
    var nodesLeft: nat
    ghost var repr: set<Node>
    ghost var base: map<Node, nat>
    ghost var contents: map<nat, nat>

    ghost function St(): State
      reads this, repr
    {
      State(Snapshot(repr), base, root, height, alloc)
    }

    /** The tree holds its contents, without any node that it does not need. */
    ghost predicate Valid()
      reads this, repr
    {
      Sound(St(), contents) && Tight(St()) && forall k | k in contents :: k < KEYS
    }

    /** rdxtree_init. */
    constructor (keyAlloc: bool)
      ensures Valid() && contents == map[] && alloc == keyAlloc
    {
      alloc := keyAlloc;
      height, root, repr, base, contents := 0, Nil, {}, map[], map[];
    }

    lemma Read(n: Node)
      requires n in St().m
      ensures n in repr && St().m[n] == n.Value()
    {}

    /** rdxtree_node_insert. */
    method Fill(n: Node, i: nat, e: Entry)
      requires n in repr && i < |n.entries|
      modifies n`nr, n`entries
      ensures St() == old(St()).(m := old(St()).m[n := Filled(old(St()).m[n], i, e)])
    {
      n.nr := n.nr + 1;
      n.entries := n.entries[i := e];
    }

    /** rdxtree_node_remove. */
    method Empty(n: Node, i: nat)
      requires n in repr && i < |n.entries| && n.nr > 0
      modifies n`nr, n`entries
      ensures St() == old(St()).(m := old(St()).m[n := Emptied(old(St()).m[n], i)])
    {
      n.nr := n.nr - 1;
      n.entries := n.entries[i := Nil];
    }

    /** rdxtree_node_unlink. */
    method Unlink(n: Node)
      requires n in repr
      modifies n`parent
      ensures St() == old(St()).(m := old(St()).m[n := old(St()).m[n].(parent := null)])
    {
      n.parent := null;
    }

    ghost method Drop(n: Node)
      modifies this`repr
      ensures repr == old(repr) - {n} && St() == old(St()).(m := old(St()).m - {n})
    {
      repr := repr - {n};
    }

    /** One iteration of rdxtree_shrink. */
    method ShrinkRoot(node: Node, entry: Entry)
      requires height > 0 && node in repr && (entry.Child? ==> entry.node in repr && entry.node != node)
      requires entry.Child? <==> height > 1
      modifies this`root, this`height, this`repr, repr
      ensures St() == Shrunk(old(St()), node, entry) && repr == old(repr) - {node}
      ensures root == entry && height == old(height) - 1
    {
      hide Snapshot;
      height := height - 1;
      if height > 0 {
        Unlink(entry.node);
      }
      root := entry;
      Drop(node);
    }

    /** rdxtree_shrink. */
    method Shrink()
      requires Sound(St(), contents) && NoEmptyBut(St(), null) && !root.Nil?
      modifies this`root, this`height, this`repr, repr
      ensures Sound(St(), contents) && Tight(St()) && repr <= old(repr)
    {
      hide Snapshot, Sound, Shrunk;
      while height > 0
        invariant Sound(St(), contents) && NoEmptyBut(St(), null) && !root.Nil? && repr <= old(repr)
        decreases height
      {
        RootNode(St(), contents);
        var node := root.node;
        Read(node);
        if node.nr != 1 {
          return;
        }
        var entry := node.entries[0];
        if entry.Nil? {
          return;
        }
        ShrinkSound(St(), contents, node);
        if entry.Child? { Read(entry.node); }
        ShrinkRoot(node, entry);
      }
    }

    /** The end of an iteration of rdxtree_cleanup. */
    method DetachFrom(prev: Node, node: Node)
      requires prev in repr && node in repr && prev != node && prev.index < |node.entries| && node.nr > 0
      modifies this`repr, prev, node
      ensures St() == Detach(old(St()), prev, node, old(prev.index)) && repr == old(repr) - {prev}
    {
      hide Snapshot;
      ghost var s := St();
      ReadAny(prev);
      ReadAny(node);
      Unlink(prev);
      Empty(node, prev.index);
      Drop(prev);
      assert St().m == Detach(s, prev, node, prev.index).m;
    }

    lemma ReadAny(n: Node)
      requires n in repr
      ensures n in St().m && St().m[n] == n.Value()
    {}

    /** rdxtree_cleanup. */
    method Cleanup(start: Node)
      requires Sound(St(), contents) && start in repr && NoEmptyBut(St(), start) && root.Child? && root.node in repr
      requires root != Child(start) ==> RootNeeded(St())
      modifies this`root, this`height, this`repr, repr
      ensures Sound(St(), contents) && Tight(St()) && repr <= old(repr)
    {
      hide Snapshot, Sound, Detach, RootNeeded, NoEmptyBut, Tight;
      var node := start;
      while true
        invariant Sound(St(), contents) && node in repr && NoEmptyBut(St(), node) && root.Child? && root.node in repr
        invariant root != Child(node) ==> RootNeeded(St())
        invariant repr <= old(repr)
        decreases height - node.height
      {
        ReadAny(node);
        ReadRoot();
        NodeFacts(St(), contents, node);
        if node.nr != 0 {
          NotEmpty(St(), node);
          if node.parent == null {
            Shrink();
          }
          return;
        }
        if node.parent == null {
          ClearSound(St(), contents, node);
          height, root := 0, Nil;
          DropAll(node);
          return;
        }
        var prev := node;
        node := node.parent;
        ReadRoot();
        DetachSound(St(), contents, prev, node);
        ReadAny(prev);
        Read(node);
        DetachFrom(prev, node);
        ReadRoot();
      }
    }

    lemma ReadRoot()
      ensures St().m.Keys == repr
    {}

    ghost method DropAll(n: Node)
      requires repr == {n} && height == 0 && root == Nil
      modifies this`repr
      ensures repr == {} && St() == old(St()).(m := map[])
    {
      repr := {};
    }

    /** rdxtree_node_bm_set and rdxtree_node_bm_clear. */
    method SetBm(n: Node, i: nat, b: bool)
      requires n in repr && i < |n.bm|
      modifies n`bm
      ensures St() == SetBit(old(St()), n, i, b)
    {
      n.bm := n.bm[i := b];
    }

    /** rdxtree_insert_bm_clear: once an entry is used, what cannot be allocated any more is marked. */
    method InsertBmClear(n: Node, i: nat)
      requires Shape(St()) && Models(St(), contents) && ClearDue(St(), n, i)
      modifies repr`bm
      ensures Sound(St(), contents) && SameButBits(old(St()), St())
    {
      hide Snapshot, Shape, Models, ClearDue, SetBit;
      var node: Node, index: nat := n, i;
      SameSelf(St());
      while true
        invariant Shape(St()) && Models(St(), contents) && ClearDue(St(), node, index) && SameButBits(old(St()), St())
        decreases height - node.height
      {
        DueFacts(St(), node, index);
        ClearRound(St(), contents, node, index);
        SameSetBit(old(St()), St(), node, index, false);
        Read(node);
        SetBm(node, index, false);
        if node.nr != SIZE || node.parent == null {
          return;
        }
        index, node := node.index, node.parent;
      }
    }

    /** rdxtree_remove_bm_set: before an entry is freed, what can be allocated again is marked. */
    method RemoveBmSet(l: Node, i0: nat)
      requires Shape(St()) && Models(St(), contents) && l in St().m && i0 < SIZE && St().m[l].nr > 0
      requires |St().m[l].entries| == SIZE && St().m[l].entries[i0].Ptr? && SetDue(TakePtr(St(), l, i0), l, i0)
      modifies repr`bm
      ensures Shape(St()) && Models(St(), contents) && SameButBits(old(St()), St())
      ensures l in St().m && Bits(TakePtr(St(), l, i0))
    {
      hide Snapshot, Shape, Models, SetDue, SetBit, TakePtr;
      var node: Node, index: nat := l, i0;
      SameSelf(St());
      while true
        invariant Shape(St()) && Models(St(), contents) && SameButBits(old(St()), St())
        invariant l in St().m && |St().m[l].entries| == SIZE && St().m[l].entries[i0].Ptr? && St().m[l].nr > 0
        invariant SetDue(TakePtr(St(), l, i0), node, index)
        decreases height - node.height
      {
        SetRound(St(), contents, l, i0, node, index);
        SameSetBit(old(St()), St(), node, index, true);
        Read(node);
        if node.parent != null { Read(node.parent); }
        SetBm(node, index, true);
        if node.parent == null {
          return;
        }
        index, node := node.index, node.parent;
        if node.bm[index] {
          return;
        }
      }
    }

    lemma SameSelf(s: State)
      ensures SameButBits(s, s)
    {}

    /** rdxtree_node_create. */
    method Create(h: nat) returns (n: Node?)
      modifies this`nodesLeft
      ensures n == null <==> old(nodesLeft) == 0
      ensures nodesLeft == if old(nodesLeft) == 0 then 0 else old(nodesLeft) - 1
      ensures n != null ==> fresh(n) && n.height == h && n.Value() == Cell(null, n.index, 0, FULL, EMPTY)
    {
      if nodesLeft == 0 {
        return null;
      }
      nodesLeft := nodesLeft - 1;
      n := new Node(h);
    }

    /** rdxtree_node_bm_empty. */
    method BmEmpty(n: Node) returns (b: bool)
      ensures b <==> !HasSet(n.bm)
    {
      b := true !in n.bm;
    }

    /** The old root is linked under a new one, whose first bit is cleared when nothing can be allocated below. */
    method LinkRoot(node: Node)
      requires !root.Nil? && node !in repr && (root.Child? ==> root.node in repr) && (root.Ptr? <==> height == 0)
      requires node.bm == FULL
      modifies node`bm, repr
      ensures GrownBm(old(St()), node.bm)
      ensures St() == old(St()).(m := if root.Child? then old(St()).m[root.node := old(St()).m[root.node].(parent := node, index := 0)]
                                      else old(St()).m)
    {
      if height == 0 {
        if alloc {
          node.bm := node.bm[0 := false];
        }
      } else {
        var empty := BmEmpty(root.node);
        root.node.parent, root.node.index := node, 0;
        if alloc && empty {
          node.bm := node.bm[0 := false];
        }
      }
    }

    ghost method Admit(node: Node, b: nat)
      requires node !in repr
      modifies this`repr, this`base
      ensures repr == old(repr) + {node}
      ensures St() == old(St()).(m := old(St()).m[node := node.Value()], base := old(base)[node := b])
    {
      repr, base := repr + {node}, base[node := b];
    }

    /** An iteration of rdxtree_grow: node is put above the root. */
    method GrowRoot(node: Node)
      requires !root.Nil? && node !in repr && (root.Child? ==> root.node in repr) && (root.Ptr? <==> height == 0)
      requires node.Value() == Cell(null, node.index, 0, FULL, EMPTY)
      modifies this`root, this`height, this`repr, this`base, node, repr
      ensures exists bm :: GrownBm(old(St()), bm) && St() == Grown(old(St()), node, old(node.index), bm)
      ensures root == Child(node) && height == old(height) + 1 && repr == old(repr) + {node}
    {
      hide Snapshot, GrownBm;
      ghost var s := St();
      ReadRoot();
      LinkRoot(node);
      node.nr := node.nr + 1;
      node.entries := node.entries[0 := root];
      height := height + 1;
      root := Child(node);
      Admit(node, 0);
      assert St() == Grown(s, node, node.index, node.bm);
    }

    /** The height that rdxtree_grow gives the tree. */
    method HeightNeeded(key: nat) returns (newHeight: nat)
      requires key < KEYS && height < 11 && key > MaxKey(height)
      ensures HeightFor(key, newHeight) && height < newHeight
    {
      hide Pow, MaxKey;
      newHeight := height + 1;
      OldHeight(key, height);
      while key > MaxKey(newHeight)
        invariant height < newHeight <= 11 && key / Pow(newHeight - 1) != 0
        decreases 11 - newHeight
      {
        NewHeight(key, newHeight);
        newHeight := newHeight + 1;
      }
      NewHeight(key, newHeight);
    }

    /** rdxtree_grow. */
    method Grow(key: nat) returns (error: Error)
      requires Valid() && key < KEYS && key > MaxKey(height)
      modifies this`root, this`height, this`repr, this`base, this`nodesLeft, repr
      ensures fresh(repr - old(repr))
      ensures error == Ok ==> Sound(St(), contents) && NoEmptyBut(St(), null) && HeightFor(key, height)
      ensures error == NoMemory ==> Valid() && nodesLeft == 0
      ensures error != Busy
    {
      hide Snapshot, Sound, NoEmptyBut, Tight, Pow, GrownBm, Grown, Digit;
      RootKind(St(), contents);
      TightParts(St());
      VisitStart(St(), contents, key);
      var newHeight := HeightNeeded(key);
      if root.Nil? {
        RaisedEmpty(St(), contents, newHeight);
        ghost var s := St();
        height := newHeight;
        assert St() == s.(height := newHeight);
        return Ok;
      }
      error := GrowTo(newHeight);
    }

    lemma OldHeight(key: nat, h: nat)
      requires key < KEYS && h <= 11 && key > MaxKey(h)
      ensures key / Pow(h) != 0
    {
      MaxKeyFits(key, h);
    }

    /** The loop of rdxtree_grow. */
    method GrowTo(newHeight: nat) returns (error: Error)
      requires Sound(St(), contents) && NoEmptyBut(St(), null) && !root.Nil? && height < newHeight <= 11
      requires forall k | k in contents :: k < KEYS
      modifies this`root, this`height, this`repr, this`base, this`nodesLeft, repr
      ensures fresh(repr - old(repr))
      ensures error == Ok ==> Sound(St(), contents) && NoEmptyBut(St(), null) && height == newHeight
      ensures error == NoMemory ==> Valid() && nodesLeft == 0
      ensures error != Busy
    {
      hide Snapshot, Sound, NoEmptyBut, Tight, GrownBm, Grown;
      error := Ok;
      while height < newHeight
        invariant Sound(St(), contents) && NoEmptyBut(St(), null) && !root.Nil? && height <= newHeight
        invariant fresh(repr - old(repr)) && error == Ok
        decreases newHeight - height
      {
        RootKind(St(), contents);
        ReadRoot();
        ghost var s := St();
        var node := Create(height);
        assert St() == s;
        if node == null {
          Shrink();
          return NoMemory;
        }
        ghost var i := node.index;
        GrowRoot(node);
        GrownEither(s, St(), contents, node, i);
      }
    }

    /** rdxtree_lookup_common: the pointer bound to a key, and its slot. */
    method Lookup(key: nat) returns (slot: Slot, r: Entry)
      requires Valid() && key < KEYS
      ensures r == if key in contents then Ptr(contents[key]) else Nil
      ensures if key in contents then SlotOf(St(), slot, key) && slot != NoSlot else slot == NoSlot
    {
      hide Snapshot, Sound, Tight, Pow, Digit, OnPath;
      RootKind(St(), contents);
      VisitStart(St(), contents, key);
      ReadRoot();
      if root.Nil? {
        return NoSlot, Nil;
      }
      if key > MaxKey(height) {
        return NoSlot, Nil;
      }
      if height == 0 {
        return RootSlot, root;
      }
      var node, h := root.node, height;
      while true
        invariant h > 0 && OnPath(St(), node, key) && node.height + 1 == h
        decreases h
      {
        PathIn(St(), node, key);
        Read(node);
        Visit(St(), contents, node, key);
        var index := Digit(key, h - 1);
        var entry := node.entries[index];
        if entry.Nil? {
          return NoSlot, Nil;
        }
        h := h - 1;
        if h == 0 {
          return NodeSlot(node, index), entry;
        }
        node := entry.node;
      }
    }

    /** rdxtree_replace_slot. */
    method ReplaceSlot(slot: Slot, ptr: nat, ghost key: nat) returns (was: Entry)
      requires Valid() && key in contents && SlotOf(St(), slot, key)
      modifies this`root, this`contents, repr
      ensures Valid() && was == Ptr(old(contents)[key]) && contents == old(contents)[key := ptr]
    {
      hide Snapshot, Sound, Tight;
      RootKind(St(), contents);
      ghost var s := St();
      if slot.RootSlot? {
        was := root;
        root := Ptr(ptr);
        contents := contents[key := ptr];
        ReplacedRoot(s, St(), old(contents), ptr);
      } else {
        PathOf(s, slot, key);
        Read(slot.node);
        ReplacedSound(s, contents, slot.node, key, ptr);
        was := slot.node.entries[slot.index];
        Store(slot.node, slot.index, ptr);
        contents := contents[key := ptr];
      }
    }

    method Store(n: Node, i: nat, p: nat)
      requires n in repr && i < |n.entries|
      modifies n`entries
      ensures St() == Stored(old(St()), n, i, p)
    {
      n.entries := n.entries[i := Ptr(p)];
    }

    lemma PathIn(s: State, n: Node, key: nat)
      requires OnPath(s, n, key)
      ensures n in s.m
    {}

    /** A new node is linked under another one. */
    method AttachTo(prev: Node, index: nat, node: Node)
      requires prev in repr && node !in repr && index < |prev.entries| && prev in St().base
      requires node.Value() == Cell(null, node.index, 0, FULL, EMPTY)
      modifies this`repr, this`base, prev, node
      ensures St() == Attach(old(St()), prev, index, node) && repr == old(repr) + {node}
    {
      hide Snapshot;
      ghost var s := St();
      ReadAny(prev);
      ReadRoot();
      node.parent, node.index := prev, index;
      Fill(prev, index, Child(node));
      Admit(node, base[prev] * SIZE + index);
      assert St() == Attach(s, prev, index, node);
    }

    /** The end of an insertion. */
    method InsertAt(prev: Node, index: nat, ptr: nat, ghost key: nat)
      requires Sound(St(), contents) && prev in St().m && Going(St(), prev, key) && OnPath(St(), prev, key) && prev.height == 0
      requires |prev.entries| == SIZE && index == key % SIZE && prev.entries[index].Nil?
      modifies this`contents, repr
      ensures Sound(St(), contents) && Tight(St()) && contents == old(contents)[key := ptr]
      ensures SlotOf(St(), NodeSlot(prev, index), key)
    {
      hide Snapshot, Sound, Shape, Models, Bits, Going, Tight, OnPath, ClearDue, SlotOf, PutPtr;
      Read(prev);
      ghost var s := St();
      PutSound(s, contents, prev, key, ptr);
      Fill(prev, index, Ptr(ptr));
      contents := contents[key := ptr];
      PutIs(s, prev, index, ptr);
      ghost var s' := St();
      if alloc {
        InsertBmClear(prev, index);
        SameTight(s', St());
        SlotSame(s', St(), NodeSlot(prev, index), key);
      } else {
        SoundParts(St(), contents);
      }
    }

    lemma SoundParts(s: State, c: map<nat, nat>)
      ensures Shape(s) && Models(s, c) && Bits(s) <==> Sound(s, c)
    {}

    lemma PutIs(s: State, n: Node, i: nat, p: nat)
      requires n in s.m && i < |s.m[n].entries|
      ensures PutPtr(s, n, i, p) == s.(m := s.m[n := Filled(s.m[n], i, Ptr(p))])
    {}

    /** A first node, in a tree without any. */
    method FirstNode(ghost key: nat) returns (error: Error)
      requires Sound(St(), contents) && root.Nil? && HeightFor(key, height)
      modifies this`root, this`height, this`repr, this`base, this`nodesLeft
      ensures error == Ok ==>
        root.Child? && fresh(root.node) && repr == {root.node} && Sound(St(), contents)
        && Going(St(), root.node, key) && OnPath(St(), root.node, key) && height == old(height)
      ensures error == NoMemory ==> Sound(St(), contents) && Tight(St()) && nodesLeft == 0 && repr == old(repr)
      ensures error != Busy
    {
      hide Snapshot, Sound, Going, OnPath, HeightFor;
      RootKind(St(), contents);
      HeightForPositive(key, height);
      ReadRoot();
      ghost var s := St();
      var node := Create(height - 1);
      if node == null {
        RaisedEmpty(s, contents, 0);
        height := 0;
        assert St() == s.(height := 0);
        EmptyTight(St());
        return NoMemory;
      }
      AttachRootSound(s, contents, node, node.index, key);
      root := Child(node);
      Admit(node, 0);
      assert St() == AttachRoot(s, node, node.index);
      return Ok;
    }

    lemma HeightForPositive(key: nat, h: nat)
      requires HeightFor(key, h)
      ensures h > 0
    {}

    lemma EmptyTight(s: State)
      requires s.root.Nil? && s.height == 0 && s.m == map[]
      ensures Tight(s)
    {}

    /** A new node under an empty entry on the path of a key. */
    method AttachNew(prev: Node, index: nat, ghost key: nat) returns (node: Node?)
      requires Sound(St(), contents) && prev in St().m && Going(St(), prev, key) && OnPath(St(), prev, key) && prev.height > 0
      requires |prev.entries| == SIZE && index == Digit(key, prev.height) && prev.entries[index].Nil?
      modifies this`root, this`height, this`repr, this`base, this`nodesLeft, repr
      ensures Sound(St(), contents) && fresh(repr - old(repr))
      ensures node == null ==> Tight(St()) && nodesLeft == 0
      ensures node != null ==>
        node in St().m && Going(St(), node, key) && OnPath(St(), node, key) && node.height + 1 == prev.height && height == old(height)
      ensures node != null ==> prev in old(St()).base && index < SIZE && CanAttach(old(St()), prev, index, node)
      ensures node != null ==> St() == Attach(old(St()), prev, index, node)
    {
      hide Snapshot, Sound, Going, OnPath, Tight, Digit, RootNeeded, NoEmptyBut, Attach, CanAttach;
      Read(prev);
      Visit(St(), contents, prev, key);
      GoingParts(St(), prev, key);
      ghost var s := St();
      ReadRoot();
      node := Create(prev.height - 1);
      assert St() == s;
      if node == null {
        Cleanup(prev);
        return;
      }
      AttachReady(s, prev, key, node);
      AttachSound(s, contents, prev, key, node);
      AttachTo(prev, index, node);
      GoingParts(St(), node, key);
    }

    /** The way down of an insertion, from a root on the path of the key. */
    method InsertDown(key: nat, ptr: nat) returns (error: Error, slot: Slot)
      requires Sound(St(), contents) && root.Child? && root.node in St().m
      requires Going(St(), root.node, key) && OnPath(St(), root.node, key) && root.node.height + 1 == height
      modifies this`root, this`height, this`repr, this`base, this`contents, this`nodesLeft, repr
      ensures Sound(St(), contents) && Tight(St()) && fresh(repr - old(repr))
      ensures error == Ok ==> key !in old(contents) && contents == old(contents)[key := ptr] && SlotOf(St(), slot, key)
      ensures error == Busy ==> key in old(contents) && contents == old(contents)
      ensures error == NoMemory ==> key !in old(contents) && contents == old(contents) && nodesLeft == 0
    {
      hide Snapshot, Sound, Going, OnPath, SlotOf, Tight, Digit, RootNeeded, NoEmptyBut;
      var prev, h := root.node, height;
      slot := NoSlot;
      while true
        invariant Sound(St(), contents) && prev in St().m && Going(St(), prev, key) && OnPath(St(), prev, key)
        invariant h > 0 && prev.height + 1 == h && contents == old(contents) && fresh(repr - old(repr))
        decreases h
      {
        Read(prev);
        Visit(St(), contents, prev, key);
        GoingVisit(St(), contents, prev, key);
        GoingParts(St(), prev, key);
        var index := Digit(key, h - 1);
        var entry := prev.entries[index];
        h := h - 1;
        if h == 0 {
          if !entry.Nil? {
            return Busy, NoSlot;
          }
          InsertAt(prev, index, ptr, key);
          return Ok, NodeSlot(prev, index);
        }
        if entry.Nil? {
          var node := AttachNew(prev, index, key);
          if node == null {
            return NoMemory, NoSlot;
          }
          entry := Child(node);
        }
        prev := entry.node;
        GoingParts(St(), prev, key);
      }
    }

    /** rdxtree_insert_common. */
    method Insert(key: nat, ptr: nat) returns (error: Error, slot: Slot)
      requires Valid() && key < KEYS
      modifies this`root, this`height, this`repr, this`base, this`contents, this`nodesLeft, repr
      ensures Valid() && fresh(repr - old(repr))
      ensures error == Ok ==> key !in old(contents) && contents == old(contents)[key := ptr] && SlotOf(St(), slot, key)
      ensures error == Busy ==> key in old(contents) && contents == old(contents)
      ensures error == NoMemory ==> key !in old(contents) && contents == old(contents) && nodesLeft == 0
    {
      hide Snapshot, Sound, Going, OnPath, SlotOf, Tight, HeightFor;
      RootKind(St(), contents);
      VisitStart(St(), contents, key);
      TightMeans(St());
      slot := NoSlot;
      if key > MaxKey(height) {
        error := Grow(key);
        if error != Ok {
          return;
        }
        RootKind(St(), contents);
        HeightForPositive(key, height);
        if root.Nil? {
          error := FirstNode(key);
          if error != Ok {
            return;
          }
        } else {
          GoingStart(St(), contents, key);
          HeightForFits(key, height);
          PathStartHere(St(), contents, key);
        }
      } else if height == 0 {
        if !root.Nil? {
          return Busy, NoSlot;
        }
        ghost var s := St();
        root := Ptr(ptr);
        contents := contents[key := ptr];
        FirstPtr(s, St(), old(contents), ptr);
        return Ok, RootSlot;
      } else {
        GoingStart(St(), contents, key);
      }
      RootKind(St(), contents);
      PathHeight(St(), contents);
      error, slot := InsertDown(key, ptr);
    }

    /** The end of rdxtree_remove, once the leaf has been found. */
    method RemoveAt(prev: Node, index: nat, ghost key: nat)
      requires Sound(St(), contents) && Tight(St()) && SlotOf(St(), NodeSlot(prev, index), key) && index == key % SIZE
      modifies this`root, this`height, this`repr, this`contents, repr
      ensures Sound(St(), contents) && Tight(St()) && repr <= old(repr) && contents == old(contents) - {key}
    {
      hide Snapshot, Sound, Shape, Models, Bits, Tight, SlotOf, TakePtr, SetDue, RootNeeded, NoEmptyBut;
      TakeReady(St(), contents, prev, key);
      SoundParts(St(), contents);
      ghost var s := St();
      if alloc {
        RemoveBmSet(prev, index);
        SameTight(s, St());
        SlotSame(s, St(), NodeSlot(prev, index), key);
      }
      ghost var t := St();
      Read(prev);
      TakeSound(t, contents, prev, key);
      TakeIs(t, prev, index);
      Empty(prev, index);
      contents := contents - {key};
      ReadRoot();
      Cleanup(prev);
    }

    lemma TakeIs(s: State, n: Node, i: nat)
      requires n in s.m && i < |s.m[n].entries| && s.m[n].nr > 0
      ensures TakePtr(s, n, i) == s.(m := s.m[n := Emptied(s.m[n], i)])
    {}

    /** rdxtree_remove. */
    method Remove(key: nat) returns (r: Entry)
      requires Valid() && key < KEYS
      modifies this`root, this`height, this`repr, this`contents, repr
      ensures Valid() && contents == old(contents) - {key}
      ensures r == if key in old(contents) then Ptr(old(contents)[key]) else Nil
    {
      hide Snapshot, Sound, Tight, SlotOf;
      RootKind(St(), contents);
      VisitStart(St(), contents, key);
      if height == 0 && key <= MaxKey(height) {
        r := root;
        ghost var s := St();
        root := Nil;
        ClearedRoot(s, St(), contents);
        contents := contents - {key};
        return;
      }
      var slot;
      slot, r := Lookup(key);
      if slot == NoSlot {
        assert contents - {key} == contents;
        return;
      }
      SlotKind(St(), slot, key);
      RemoveAt(slot.node, slot.index, key);
    }

    lemma SlotKind(s: State, slot: Slot, key: nat)
      requires SlotOf(s, slot, key)
      ensures if s.height == 0 then slot == RootSlot && key == 0 else slot.NodeSlot? && slot.index == key % SIZE
    {}

    /** rdxtree_node_bm_first: the first set bit. */
    method BmFirst(n: Node) returns (found: bool, i: nat)
      ensures found <==> HasSet(n.bm)
      ensures found ==> i < |n.bm| && n.bm[i] && forall j | 0 <= j < i :: !n.bm[j]
    {
      i := 0;
      while i < |n.bm|
        invariant i <= |n.bm| && forall j | 0 <= j < i :: !n.bm[j]
      {
        if n.bm[i] {
          return true, i;
        }
        i := i + 1;
      }
      found := false;
    }

    /** The way down of rdxtree_insert_alloc_common: done is false when the root's bitmap has no set bit. The pointer is
        stored where full leads to, and key is full in 64 bits. */
    method AllocDown(ptr: nat) returns (done: bool, error: Error, key: nat, slot: Slot, ghost full: nat)
      requires Sound(St(), contents) && Tight(St()) && alloc && height > 0
      modifies this`root, this`height, this`repr, this`base, this`contents, this`nodesLeft, repr
      ensures Sound(St(), contents) && Tight(St()) && fresh(repr - old(repr))
      ensures old(root).Child? && (done <==> old(HasSet(root.node.bm)))
      ensures !done ==> contents == old(contents) && height == old(height) && repr == old(repr)
      ensures done && error == Ok ==>
        && full !in old(contents) && contents == old(contents)[full := ptr] && SlotOf(St(), slot, full)
        && height == old(height) && key == Cut(full)
        && (full < KEYS <==> height <= 10 || old(HasLow(root.node.bm)))
      ensures done && error != Ok ==> error == NoMemory && contents == old(contents) && nodesLeft == 0
    {
      hide Snapshot, Sound, Going, OnPath, SlotOf, Tight, Digit, RootNeeded, NoEmptyBut, Pow, Settled, HasSet, Bits, KeyAt, Attach, CanAttach;
      hide Track, HasLow, Cut;
      RootKind(St(), contents);
      SettledRoot(St(), contents);
      var prev, h := root.node, height;
      key, slot, error, done, full := 0, NoSlot, Ok, true, 0;
      ghost var first: nat, top: nat := 0, height - 1;
      CutFits(0);
      TrackStart(top, root.node.bm);
      while true
        invariant 0 < h <= height == old(height) && prev.height + 1 == h && contents == old(contents) && fresh(repr - old(repr))
        invariant Sound(St(), contents) && prev in St().m && Settled(St(), prev) && KeyAt(St(), prev, full)
        invariant if h == height then Tight(St()) && repr == old(repr) && prev == old(root.node) && prev.bm == old(root.node.bm)
                  else HasSet(St().m[prev].bm) && old(HasSet(root.node.bm))
        invariant Track(full, h, top, first, old(root.node.bm))
        invariant key == Cut(full) && done
        decreases h
      {
        Read(prev);
        SettledParts(St(), prev);
        var found, index := BmFirst(prev);
        if !found {
          return false, Ok, key, NoSlot, full;
        }
        AllocVisit(St(), contents, prev, full, index);
        first := TrackNext(full, h, top, first, old(root.node.bm), index);
        var more := index * Pow(h - 1);
        CutAdd(full, more);
        key := Cut(key + more);
        full := full + more;
        SettledGoing(St(), prev, full);
        Visit(St(), contents, prev, full);
        GoingVisit(St(), contents, prev, full);
        var entry := prev.entries[index];
        h := h - 1;
        if h == 0 {
          InsertAt(prev, index, ptr, full);
          TrackFits(full, top, first, old(root.node.bm));
          return true, Ok, key, NodeSlot(prev, index), full;
        }
        if entry.Nil? {
          ghost var s := St();
          var node := AttachNew(prev, index, full);
          if node == null {
            return true, NoMemory, key, NoSlot, full;
          }
          SettledAttach(s, prev, full, node);
          entry := Child(node);
        } else {
          SettledDown(St(), contents, prev, index);
        }
        prev := entry.node;
        SettledParts(St(), prev);
      }
    }

    /** rdxtree_insert_alloc_common. The pointer is bound to the returned key, unless the tree has the full height, no key
        below the first 16 entries of the root can be allocated, and one below the others can: the key is cut then. */
    method InsertAlloc(ptr: nat) returns (error: Error, key: nat, slot: Slot, ghost full: nat)
      requires Valid() && alloc
      modifies this`root, this`height, this`repr, this`base, this`contents, this`nodesLeft, repr
      ensures Sound(St(), contents) && Tight(St()) && fresh(repr - old(repr))
      ensures error == Ok ==>
        full !in old(contents) && contents == old(contents)[full := ptr] && SlotOf(St(), slot, full) && key == Cut(full)
      ensures error == Ok ==>
        (key == full <==> old(height <= 10 || !HasSet(root.node.bm) || HasLow(root.node.bm)))
      ensures Valid() <==> error != Ok || key == full
      ensures error == Ok && old(root).Child? ==>
        if old(HasSet(root.node.bm)) then height == old(height)
        else full == Cut(MaxKey(old(height)) + 1) && (old(height) <= 10 ==> height > old(height))
      ensures error != Ok ==> contents == old(contents)
      ensures error == NoMemory ==> nodesLeft == 0
      ensures error == Busy <==> old(height == 11 && !HasSet(root.node.bm) && 0 in contents)
    {
      hide Snapshot, Sound, SlotOf, Tight, Pow, MaxKey, HasSet, HasLow, Cut;
      RootKind(St(), contents);
      if height == 0 {
        if root.Nil? {
          ghost var s := St();
          root := Ptr(ptr);
          contents := contents[0 := ptr];
          FirstPtr(s, St(), old(contents), ptr);
          CutFits(0);
          return Ok, 0, RootSlot, 0;
        }
      } else {
        var done;
        done, error, key, slot, full := AllocDown(ptr);
        if done {
          CutFits(full);
          assert error == Ok ==> full in contents;
          return;
        }
      }
      NextKey(height);
      CutFits(MaxKey(height) + 1);
      FullCut();
      key := Cut(MaxKey(height) + 1);
      full := key;
      CutFits(key);
      VisitStart(St(), contents, key);
      error, slot := Insert(key, ptr);
      if error == Ok && old(height) <= 10 {
        NextKeyGrows(St(), contents, old(height));
      }
    }

    /** rdxtree_node_find: the first entry in use from an index on. */
    method NodeFind(n: Node, start: nat) returns (j: nat)
      requires start <= |n.entries|
      ensures start <= j <= |n.entries| && forall i | start <= i < j :: n.entries[i].Nil?
      ensures j < |n.entries| ==> !n.entries[j].Nil?
    {
      j := start;
      while j < |n.entries|
        invariant start <= j <= |n.entries| && forall i | start <= i < j :: n.entries[i].Nil?
      {
        if !n.entries[j].Nil? {
          return;
        }
        j := j + 1;
      }
    }

    /** From the root down, in rdxtree_walk_next: found is false when the search is to be restarted with a greater key. */
    method WalkDown(start: nat, ghost pos: nat) returns (found: bool, key: nat, leaf: Node, r: Entry)
      requires Valid() && root.Child? && OnPath(St(), root.node, start) && root.node.height + 1 == height
      requires pos <= start < KEYS && Gap(contents, pos, start) && Reaches(St(), contents, pos)
      ensures start <= key <= KEYS && Gap(contents, start, key)
      ensures found ==> OnPath(St(), leaf, key) && leaf.height == 0 && key in contents && r == Ptr(contents[key])
      ensures !found ==> start < key
    {
      hide Snapshot, Sound, OnPath, Pow, Digit, KeyUp, Tight, Reaches;
      RootKind(St(), contents);
      key, leaf, r := start, root.node, Nil;
      var h := height;
      while true
        invariant height >= h > 0 && OnPath(St(), leaf, key) && leaf.height + 1 == h && (h == height ==> leaf == root.node)
        invariant start <= key < KEYS && Gap(contents, start, key)
        decreases h
      {
        PathIn(St(), leaf, key);
        Read(leaf);
        Visit(St(), contents, leaf, key);
        var index := NodeFind(leaf, Digit(key, h - 1));
        WalkVisit(St(), contents, leaf, key, index);
        if h == 11 {
          GapJoin(contents, pos, start, key);
          RootFinds(St(), contents, pos, key, index);
        }
        KeyUpFits(key, h - 1, index);
        var up := if index == Digit(key, h - 1) then key else KeyUp(key, h - 1, index);
        GapJoin(contents, start, key, up);
        key := up;
        if index == SIZE {
          return false, key, leaf, Nil;
        }
        h := h - 1;
        if h == 0 {
          return true, key, leaf, leaf.entries[index];
        }
        leaf := leaf.entries[index].node;
      }
    }

    /** rdxtree_walk_next. At the full height, the search for a key after the last one shifts by more than 64 bits, unless
        the last entry of the root that leads to keys is in use. */
    method WalkNext(iter: Iter, ghost pos: nat) returns (next: Iter, r: Entry)
      requires Valid() && IterAt(St(), iter, pos) && Reaches(St(), contents, pos)
      ensures if r.Nil? then next == iter && forall k | k in contents :: k < pos
              else NextBound(contents, pos, next.key) && r == Ptr(contents[next.key]) && IterAt(St(), next, next.key + 1)
    {
      hide Snapshot, Sound, OnPath, Tight, Pow, MaxKey, Reaches, Cut;
      RootKind(St(), contents);
      if root.Nil? {
        return iter, Nil;
      }
      if !root.Child? {
        if iter.key != KEYS - 1 {
          return iter, Nil;
        }
        return Iter(null, 0), root;
      }
      CutFits(iter.key + 1);
      FullCut();
      var key := Cut(iter.key + 1);
      if key == 0 && iter.node != null {
        return iter, Nil;
      }
      assert key == pos;
      while true
        invariant pos <= key < KEYS && Gap(contents, pos, key)
        decreases KEYS - key
      {
        if key > MaxKey(height) {
          WalkEnd(St(), contents, pos, key);
          return iter, Nil;
        }
        WalkFits(key, height);
        PathStartHere(St(), contents, key);
        ReadRoot();
        PathHeight(St(), contents);
        var found, up, leaf, entry := WalkDown(key, pos);
        GapJoin(contents, pos, key, up);
        CutFits(up);
        key := Cut(up);
        if found {
          return Iter(leaf, key), entry;
        }
        if key == 0 {
          return iter, Nil;
        }
      }
    }

    lemma WalkFits(key: nat, h: nat)
      requires key < KEYS && h <= 11 && key <= MaxKey(h)
      ensures key / Pow(h) == 0 && key < Pow(h)
    {
      MaxKeyFits(key, h);
      SmallDiv(key, Pow(h));
    }

    /** rdxtree_walk: the next bound key of an iteration, with its pointer. */
    method Walk(iter: Iter, ghost pos: nat) returns (next: Iter, r: Entry)
      requires Valid() && IterAt(St(), iter, pos) && Reaches(St(), contents, pos)
      ensures if r.Nil? then next == iter && forall k | k in contents :: k < pos
              else NextBound(contents, pos, next.key) && r == Ptr(contents[next.key]) && IterAt(St(), next, next.key + 1)
    {
      hide Snapshot, Sound, OnPath, Tight, Pow, Digit, KeyUp, Reaches;
      if iter.node != null {
        var index := (iter.key + 1) % SIZE;
        if index != 0 {
          SameLeaf(St(), contents, iter, pos);
          PathIn(St(), iter.node, pos);
          Read(iter.node);
          Visit(St(), contents, iter.node, pos);
          var j := NodeFind(iter.node, index);
          WalkVisit(St(), contents, iter.node, pos, j);
          if j < SIZE {
            next := Iter(iter.node, iter.key + (j - index) + 1);
            NearKey(pos, j);
            return next, iter.node.entries[j];
          }
        }
      }
      next, r := WalkNext(iter, pos);
    }

    lemma NearKey(key: nat, j: nat)
      requires Digit(key, 0) <= j <= SIZE
      ensures KeyUp(key, 0, j) == key + (j - Digit(key, 0)) && Digit(key, 0) == key % SIZE
    {}

    lemma SameLeaf(s: State, c: map<nat, nat>, iter: Iter, pos: nat)
      requires Sound(s, c) && IterAt(s, iter, pos) && iter.node != null && (iter.key + 1) % SIZE != 0
      ensures OnPath(s, iter.node, pos) && iter.node.height == 0 && pos == iter.key + 1 && s.height > 0
    {
      HeightPositive(s, iter.node);
      assert pos / Pow(1) == iter.key / Pow(1);
    }

    /** rdxtree_for_each: the keys given to the body of the loop, in order. */
    method ForEach() returns (visited: seq<nat>)
      requires Valid() && (height == 11 ==> LastUsed(St()))
      ensures forall i, j | 0 <= i < j < |visited| :: visited[i] < visited[j]
      ensures forall k | k in contents :: k in visited
      ensures forall k | k in visited :: k in contents
    {
      hide Snapshot, Sound, OnPath, Tight, IterAt;
      var iter := Iter(null, KEYS - 1);
      FirstIter(St());
      var r;
      ghost var pos: nat := 0;
      visited := [];
      iter, r := Walk(iter, pos);
      while !r.Nil?
        invariant if r.Nil? then forall k | k in contents :: k < pos
                  else NextBound(contents, pos, iter.key) && r == Ptr(contents[iter.key]) && IterAt(St(), iter, iter.key + 1)
        invariant forall i, j | 0 <= i < j < |visited| :: visited[i] < visited[j]
        invariant forall k | k in visited :: k in contents && k < pos
        invariant forall k | k in contents && k < pos :: k in visited
        decreases if r.Nil? then 0 else 1 + KEYS - iter.key
      {
        ghost var k := iter.key;
        assert forall i | 0 <= i < |visited| :: visited[i] in visited;
        visited := visited + [iter.key];
        pos := iter.key + 1;
        iter, r := Walk(iter, pos);
      }
    }

    lemma FirstIter(s: State)
      ensures IterAt(s, Iter(null, KEYS - 1), 0)
    {}
  }
}
