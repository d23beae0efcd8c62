// The red-black trees of kern/rbtree.c: nodes linked by child and parent pointers, rotated and recoloured in place.

module RbTree {
  /** The index of a child. */
  type Index = i: int | 0 <= i < 2

  const LEFT: Index := 0
  const RIGHT: Index := 1

  function Other(i: Index): Index { 1 - i }

  /** A node, and the key by which the users of the tree compare the structures holding nodes. */
  class Node {
    const key: int
    var red: bool
    var parent: Node?
    var left: Node?
    var right: Node?

    function Child(i: Index): Node?
      reads this
    {
      if i == LEFT then left else right
    }

    /** rbtree_node_unlinked. */
    predicate Unlinked()
      reads this
    {
      parent == this
    }

    /** rbtree_node_init. */
    constructor (k: int)
      ensures key == k && Unlinked() && red && left == null && right == null
    {
      key := k;
      red := true;
      left, right := null, null;
      parent := this;
    }

    ghost function Value(): Cell
      reads this
    {
      Cell(red, parent, left, right)
    }
  }

  /** What a node holds. */
  datatype Cell = Cell(red: bool, parent: Node?, left: Node?, right: Node?)

  type Mem = map<Node, Cell>

  ghost function Snapshot(nodes: set<Node>): Mem
    reads nodes
  {
    map n | n in nodes :: n.Value()
  }

  datatype Tree = Leaf | Branch(node: Node, red: bool, left: Tree, right: Tree)

  /** A tree with a hole, seen from the hole: side is the index of the hole under node. */
  datatype Path = Top | Step(up: Path, node: Node, red: bool, side: Index, other: Tree)

  // ---------------------------------------------------------------- trees

  function Ref(t: Tree): Node? { if t.Leaf? then null else t.node }

  function Kid(t: Tree, i: Index): Tree
    requires t.Branch?
  {
    if i == LEFT then t.left else t.right
  }

  /** The node with a as its child i, and b as the other one. */
  function Make(n: Node, red: bool, i: Index, a: Tree, b: Tree): Tree {
    if i == LEFT then Branch(n, red, a, b) else Branch(n, red, b, a)
  }

  function Seq(t: Tree): seq<Node> {
    if t.Leaf? then [] else Seq(t.left) + [t.node] + Seq(t.right)
  }

  function Elems(t: Tree): set<Node> {
    if t.Leaf? then {} else Elems(t.left) + {t.node} + Elems(t.right)
  }

  function Plug(c: Path, t: Tree): Tree {
    match c
    case Top => t
    case Step(up, n, red, side, other) => Plug(up, Make(n, red, side, t, other))
  }

  function Before(c: Path): seq<Node> {
    match c
    case Top => []
    case Step(up, n, _, side, other) => if side == LEFT then Before(up) else Before(up) + Seq(other) + [n]
  }

  function After(c: Path): seq<Node> {
    match c
    case Top => []
    case Step(up, n, _, side, other) => if side == LEFT then [n] + Seq(other) + After(up) else After(up)
  }

  function Around(c: Path): set<Node> {
    match c
    case Top => {}
    case Step(up, n, _, _, other) => {n} + Elems(other) + Around(up)
  }

  function Up(c: Path): Node? { if c.Top? then null else c.node }

  /** No node is in two places. */
  ghost predicate Tidy(t: Tree) {
    t.Branch? ==>
      && t.node !in Elems(t.left) && t.node !in Elems(t.right) && Elems(t.left) !! Elems(t.right)
      && Tidy(t.left) && Tidy(t.right)
  }

  ghost predicate TidyPath(c: Path) {
    c.Step? ==>
      && c.node !in Elems(c.other) && c.node !in Around(c.up) && Elems(c.other) !! Around(c.up)
      && Tidy(c.other) && TidyPath(c.up)
  }

  lemma {:induction false} PlugSeq(c: Path, t: Tree)
    ensures Seq(Plug(c, t)) == Before(c) + Seq(t) + After(c)
  {
    if c.Step? {
      PlugSeq(c.up, Make(c.node, c.red, c.side, t, c.other));
      assert Seq(Plug(c, t)) == Before(c) + Seq(t) + After(c);
    } else {
      assert Seq(Plug(c, t)) == Seq(t);
    }
  }

  lemma {:induction false} PlugTidy(c: Path, t: Tree)
    ensures Elems(Plug(c, t)) == Around(c) + Elems(t)
    ensures Tidy(Plug(c, t)) <==> Tidy(t) && TidyPath(c) && Elems(t) !! Around(c)
  {
    if c.Step? {
      PlugTidy(c.up, Make(c.node, c.red, c.side, t, c.other));
    }
  }

  lemma {:induction false} SeqElems(t: Tree)
    ensures forall n | n in Seq(t) :: n in Elems(t)
    ensures forall n | n in Elems(t) :: n in Seq(t)
  {
    if t.Branch? {
      SeqElems(t.left);
      SeqElems(t.right);
    }
  }

  // ---------------------------------------------------------------- trees in memory

  function CellOf(red: bool, parent: Node?, i: Index, a: Node?, b: Node?): Cell {
    if i == LEFT then Cell(red, parent, a, b) else Cell(red, parent, b, a)
  }

  /** Memory holds the tree t, under parent p. */
  ghost predicate Rep(m: Mem, t: Tree, p: Node?) {
    t.Branch? ==>
      && t.node in m && m[t.node] == Cell(t.red, p, Ref(t.left), Ref(t.right))
      && Rep(m, t.left, t.node) && Rep(m, t.right, t.node)
  }

  /** Memory holds everything around a hole where node hole is linked. */
  ghost predicate RepPath(m: Mem, root: Node?, c: Path, hole: Node?) {
    match c
    case Top => root == hole
    case Step(up, n, red, side, other) =>
      && n in m && m[n] == CellOf(red, Up(up), side, hole, Ref(other))
      && Rep(m, other, n) && RepPath(m, root, up, n)
  }

  /** The tree in memory is Plug(c, t). */
  ghost predicate At(m: Mem, root: Node?, c: Path, t: Tree) {
    && Rep(m, t, Up(c)) && RepPath(m, root, c, Ref(t))
    && Tidy(t) && TidyPath(c) && Elems(t) !! Around(c)
  }

  lemma {:induction false} RepFrame(m: Mem, m': Mem, t: Tree, p: Node?)
    requires Rep(m, t, p) && forall n | n in Elems(t) :: n in m' && n in m && m'[n] == m[n]
    ensures Rep(m', t, p)
  {
    if t.Branch? {
      assert t.node in Elems(t);
      RepFrame(m, m', t.left, t.node);
      RepFrame(m, m', t.right, t.node);
    }
  }

  lemma {:induction false} PathFrame(m: Mem, m': Mem, root: Node?, c: Path, hole: Node?)
    requires RepPath(m, root, c, hole) && forall n | n in Around(c) :: n in m' && n in m && m'[n] == m[n]
    ensures RepPath(m', root, c, hole)
  {
    if c.Step? {
      assert c.node in Around(c);
      RepFrame(m, m', c.other, c.node);
      PathFrame(m, m', root, c.up, c.node);
    }
  }

  lemma {:induction false} PlugRep(m: Mem, root: Node?, c: Path, t: Tree)
    ensures Rep(m, t, Up(c)) && RepPath(m, root, c, Ref(t)) <==> Rep(m, Plug(c, t), null) && root == Ref(Plug(c, t))
  {
    if c.Step? {
      var u := Make(c.node, c.red, c.side, t, c.other);
      PlugRep(m, root, c.up, u);
      assert Rep(m, t, c.node) && RepPath(m, root, c, Ref(t)) <==> Rep(m, u, Up(c.up)) && RepPath(m, root, c.up, c.node);
    }
  }

  /** The same tree can be looked at from any of its nodes. */
  lemma Refocus(m: Mem, root: Node?, c: Path, t: Tree, c': Path, t': Tree)
    requires At(m, root, c, t) && Plug(c, t) == Plug(c', t')
    ensures At(m, root, c', t')
  {
    PlugRep(m, root, c, t);
    PlugRep(m, root, c', t');
    PlugTidy(c, t);
    PlugTidy(c', t');
  }

  // ---------------------------------------------------------------- rotations and colours

  /** The tree that rbtree_rotate makes of t. */
  function Rotated(t: Tree, i: Index): Tree
    requires t.Branch? && Kid(t, Other(i)).Branch?
  {
    var r := Kid(t, Other(i));
    Make(r.node, r.red, i, Make(t.node, t.red, i, Kid(t, i), Kid(r, i)), Kid(r, Other(i)))
  }

  function WithParent(x: Cell, p: Node?): Cell { x.(parent := p) }

  function WithChild(x: Cell, i: Index, n: Node?): Cell { if i == LEFT then x.(left := n) else x.(right := n) }

  function ChildOf(x: Cell, i: Index): Node? { if i == LEFT then x.left else x.right }

  /** What rbtree_rotate writes, at the root of t. */
  ghost predicate RotatedMem(m: Mem, m': Mem, c: Path, t: Tree, i: Index)
    requires t.Branch? && Kid(t, Other(i)).Branch?
  {
    var r := Kid(t, Other(i));
    && m'.Keys == m.Keys
    && forall n | n in m :: m'[n] ==
         if n == t.node then WithParent(WithChild(m[n], Other(i), Ref(Kid(r, i))), r.node)
         else if n == r.node then WithParent(WithChild(m[n], i, t.node), Up(c))
         else if n == Ref(Kid(r, i)) then WithParent(m[n], t.node)
         else if n == Up(c) && c.Step? then WithChild(m[n], c.side, r.node)
         else m[n]
  }

  lemma MakeTidy(n: Node, red: bool, i: Index, a: Tree, b: Tree)
    ensures Elems(Make(n, red, i, a, b)) == Elems(a) + {n} + Elems(b)
    ensures Tidy(Make(n, red, i, a, b)) <==> n !in Elems(a) && n !in Elems(b) && Elems(a) !! Elems(b) && Tidy(a) && Tidy(b)
  {}

  lemma RotatedSeq(t: Tree, i: Index)
    requires t.Branch? && Kid(t, Other(i)).Branch?
    ensures Seq(Rotated(t, i)) == Seq(t)
  {
    var r := Kid(t, Other(i));
    if i == LEFT {
      assert Seq(t) == Seq(t.left) + [t.node] + (Seq(r.left) + [r.node] + Seq(r.right));
    } else {
      assert Seq(t) == (Seq(r.left) + [r.node] + Seq(r.right)) + [t.node] + Seq(t.right);
    }
  }

  lemma RotatedTidy(t: Tree, i: Index)
    requires t.Branch? && Kid(t, Other(i)).Branch?
    ensures Elems(Rotated(t, i)) == Elems(t)
    ensures Tidy(t) ==> Tidy(Rotated(t, i))
  {
    var r := Kid(t, Other(i));
    var a, g, b := Kid(t, i), Kid(r, i), Kid(r, Other(i));
    MakeTidy(t.node, t.red, i, a, r);
    MakeTidy(r.node, r.red, i, g, b);
    MakeTidy(t.node, t.red, i, a, g);
    MakeTidy(r.node, r.red, i, Make(t.node, t.red, i, a, g), b);
    assert t == Make(t.node, t.red, i, a, r) && r == Make(r.node, r.red, i, g, b);
    hide Elems, Tidy, Make;
  }

  /** A subtree moved under another parent. */
  lemma Moved(m: Mem, m': Mem, t: Tree, p: Node?, p': Node?)
    requires Rep(m, t, p) && Tidy(t) && Elems(t) <= m'.Keys
    requires forall n | n in Elems(t) && n in m :: m'[n] == if n == Ref(t) then WithParent(m[n], p') else m[n]
    ensures Rep(m', t, p')
  {
    if t.Branch? {
      RepIn(m, t, p);
      RepFrame(m, m', t.left, t.node);
      RepFrame(m, m', t.right, t.node);
    }
  }

  lemma {:induction false} RepIn(m: Mem, t: Tree, p: Node?)
    requires Rep(m, t, p)
    ensures Elems(t) <= m.Keys
  {
    if t.Branch? {
      RepIn(m, t.left, t.node);
      RepIn(m, t.right, t.node);
    }
  }

  lemma {:induction false} PathIn(m: Mem, root: Node?, c: Path, hole: Node?)
    requires RepPath(m, root, c, hole)
    ensures Around(c) <= m.Keys
  {
    if c.Step? {
      RepIn(m, c.other, c.node);
      PathIn(m, root, c.up, c.node);
    }
  }

  /** Another node linked at the hole. */
  lemma Relinked(m: Mem, m': Mem, root: Node?, root': Node?, c: Path, hole: Node?, hole': Node?)
    requires RepPath(m, root, c, hole) && TidyPath(c) && Around(c) <= m'.Keys
    requires forall n | n in Around(c) && n in m ::
      m'[n] == if c.Step? && n == c.node then WithChild(m[n], c.side, hole') else m[n]
    requires root' == if c.Top? then hole' else root
    ensures RepPath(m', root', c, hole')
  {
    PathIn(m, root, c, hole);
    if c.Step? {
      RepFrame(m, m', c.other, c.node);
      PathFrame(m, m', root, c.up, c.node);
    }
  }

  lemma RotatedRep(m: Mem, m': Mem, c: Path, t: Tree, i: Index)
    requires t.Branch? && Kid(t, Other(i)).Branch? && Rep(m, t, Up(c)) && Tidy(t)
    requires RotatedMem(m, m', c, t, i) && (c.Step? ==> c.node !in Elems(t))
    ensures Rep(m', Rotated(t, i), Up(c))
  {
    var r := Kid(t, Other(i));
    var a, g, b := Kid(t, i), Kid(r, i), Kid(r, Other(i));
    assert Rep(m', a, t.node) && Rep(m', g, t.node) && Rep(m', b, r.node) by { RotatedParts(m, m', c, t, i); }
  }

  /** The three subtrees below a rotation stay as they are, but for the parent of the middle one. */
  lemma RotatedParts(m: Mem, m': Mem, c: Path, t: Tree, i: Index)
    requires t.Branch? && Kid(t, Other(i)).Branch? && Rep(m, t, Up(c)) && Tidy(t)
    requires RotatedMem(m, m', c, t, i) && (c.Step? ==> c.node !in Elems(t))
    ensures var r := Kid(t, Other(i));
      Rep(m', Kid(t, i), t.node) && Rep(m', Kid(r, i), t.node) && Rep(m', Kid(r, Other(i)), r.node)
  {
    var r := Kid(t, Other(i));
    var a, g, b := Kid(t, i), Kid(r, i), Kid(r, Other(i));
    RepIn(m, t, Up(c));
    assert Elems(a) <= Elems(t) && Elems(g) <= Elems(t) && Elems(b) <= Elems(t);
    Moved(m, m', a, t.node, t.node);
    Moved(m, m', g, r.node, t.node);
    Moved(m, m', b, r.node, r.node);
  }

  lemma RotateAt(m: Mem, m': Mem, root: Node?, root': Node?, c: Path, t: Tree, i: Index)
    requires At(m, root, c, t) && t.Branch? && Kid(t, Other(i)).Branch?
    requires RotatedMem(m, m', c, t, i) && root' == if c.Top? then Kid(t, Other(i)).node else root
    ensures At(m', root', c, Rotated(t, i))
  {
    RotatedTidy(t, i);
    assert c.Step? ==> c.node in Around(c);
    RotatedRep(m, m', c, t, i);
    var r := Kid(t, Other(i));
    assert r.node in Elems(t) && (Kid(r, i).Branch? ==> Ref(Kid(r, i)) in Elems(t));
    PathIn(m, root, c, t.node);
    Relinked(m, m', root, root', c, t.node, r.node);
  }

  function Recoloured(t: Tree, red: bool): Tree
    requires t.Branch?
  {
    t.(red := red)
  }

  lemma RecolourAt(m: Mem, m': Mem, root: Node?, c: Path, t: Tree, red: bool)
    requires At(m, root, c, t) && t.Branch? && t.node in m && m' == m[t.node := m[t.node].(red := red)]
    ensures At(m', root, c, Recoloured(t, red))
  {
    RepIn(m, t, Up(c));
    PathIn(m, root, c, t.node);
    RepFrame(m, m', t.left, t.node);
    RepFrame(m, m', t.right, t.node);
    PathFrame(m, m', root, c, t.node);
  }

  /** What can be read of the root of t, and of the node above it. */
  lemma Reads(m: Mem, root: Node?, c: Path, t: Tree)
    requires At(m, root, c, t)
    ensures t.Branch? ==> t.node in m && m[t.node] == Cell(t.red, Up(c), Ref(t.left), Ref(t.right))
    ensures c.Step? ==> c.node in m && m[c.node] == CellOf(c.red, Up(c.up), c.side, Ref(t), Ref(c.other))
    ensures c.Top? ==> root == Ref(t)
  {}

  /** The inner subtree changes parents. */
  function Passed(m: Mem, node: Node, inner: Node?, i: Index): (r: Mem)
    requires node in m && (inner != null ==> inner in m)
    ensures r.Keys == m.Keys
  {
    var m1 := m[node := WithChild(m[node], Other(i), inner)];
    if inner == null then m1 else m1[inner := WithParent(m1[inner], node)]
  }

  /** A node hangs under the former child. */
  function Hung(m: Mem, node: Node, rnode: Node, parent: Node?, i: Index): (r: Mem)
    requires node in m && rnode in m
    ensures r.Keys == m.Keys
  {
    m[rnode := WithParent(WithChild(m[rnode], i, node), parent)]
  }

  /** A parent, if any, gets another child. */
  function Linked(m: Mem, parent: Node?, i: Index, x: Node?): (r: Mem)
    requires parent != null ==> parent in m
    ensures r.Keys == m.Keys
  {
    if parent == null then m else m[parent := WithChild(m[parent], i, x)]
  }

  /** The writes of rbtree_rotate, in order. */
  function RotateWrites(m: Mem, node: Node, rnode: Node, inner: Node?, parent: Node?, side: Index, i: Index): Mem
    requires node in m && rnode in m && (inner != null ==> inner in m) && (parent != null ==> parent in m)
  {
    var m2 := Passed(m, node, inner, i);
    var m4 := Hung(m2, node, rnode, parent, i);
    var m5 := Linked(m4, parent, side, rnode);
    m5[node := WithParent(m5[node], rnode)]
  }

  /** What rbtree_rotate reads, and that its nodes are distinct. */
  lemma RotateReads(m: Mem, root: Node?, c: Path, t: Tree, i: Index)
    requires At(m, root, c, t) && t.Branch? && Kid(t, Other(i)).Branch?
    ensures var r := Kid(t, Other(i));
            && t.node in m && m[t.node] == CellOf(t.red, Up(c), i, Ref(Kid(t, i)), r.node)
            && r.node in m && m[r.node] == CellOf(r.red, t.node, i, Ref(Kid(r, i)), Ref(Kid(r, Other(i))))
            && (Kid(r, i).Branch? ==> Kid(r, i).node in m)
            && r.node != t.node && Ref(Kid(r, i)) != t.node && Ref(Kid(r, i)) != r.node && Up(c) != t.node && Up(c) != r.node
            && (c.Step? ==> c.node in m && Up(c) != Ref(Kid(r, i)) && r.node != Ref(c.other)
                            && m[c.node] == CellOf(c.red, Up(c.up), c.side, t.node, Ref(c.other)))
            && (c.Step? ==> t.node != Ref(c.other))
  {
    Reads(m, root, c, t);
    var r := Kid(t, Other(i));
    RepIn(m, t, Up(c));
    assert r.node in Elems(t) && Rep(m, r, t.node) && Tidy(r) && Elems(r) <= Elems(t);
    assert Kid(r, i).Branch? ==> Kid(r, i).node in Elems(Kid(r, i)) && Kid(r, i).node in Elems(r);
  }

  // ---------------------------------------------------------------- the red-black rules

  function IsBlack(t: Tree): bool { t.Leaf? || !t.red }

  /** The number of black nodes between a node and any leaf below it. */
  function Height(t: Tree): nat {
    if t.Leaf? then 0 else Height(t.left) + if t.red then 0 else 1
  }

  ghost predicate Balanced(t: Tree) {
    t.Branch? ==>
      && Balanced(t.left) && Balanced(t.right) && Height(t.left) == Height(t.right)
      && (t.red ==> IsBlack(t.left) && IsBlack(t.right))
  }

  ghost predicate RedBlack(t: Tree) { Balanced(t) && IsBlack(t) }

  /** A balanced tree of height h, black under a red node, makes a red-black tree at the hole of c. */
  ghost predicate Fits(c: Path, h: nat) {
    c.Step? ==>
      && Balanced(c.other) && Height(c.other) == h
      && (c.red ==> IsBlack(c.other) && c.up.Step? && !c.up.red)
      && Fits(c.up, if c.red then h else h + 1)
  }

  lemma {:induction false} PlugRedBlack(c: Path, t: Tree)
    requires Balanced(t) && Fits(c, Height(t)) && (IsBlack(t) || (c.Step? && !c.red))
    ensures RedBlack(Plug(c, t))
  {
    if c.Step? { PlugRedBlack(c.up, Make(c.node, c.red, c.side, t, c.other)); }
  }

  lemma {:induction false} UnplugRedBlack(c: Path, t: Tree)
    requires RedBlack(Plug(c, t))
    ensures Balanced(t) && Fits(c, Height(t)) && (IsBlack(t) || (c.Step? && !c.red))
  {
    if c.Step? { UnplugRedBlack(c.up, Make(c.node, c.red, c.side, t, c.other)); }
  }

  // ---------------------------------------------------------------- insertion

  /** A new node at an empty place. */
  lemma LinkAt(m: Mem, m': Mem, root: Node?, root': Node?, c: Path, n: Node)
    requires At(m, root, c, Leaf) && n !in m && m'.Keys == m.Keys + {n} && m'[n] == Cell(true, Up(c), null, null)
    requires forall x | x in m :: m'[x] == if c.Step? && x == c.node then WithChild(m[x], c.side, n) else m[x]
    requires root' == if c.Top? then n else root
    ensures At(m', root', c, Branch(n, true, Leaf, Leaf))
  {
    PathIn(m, root, c, null);
    Relinked(m, m', root, root', c, null, n);
  }

  /** The uncle is red. */
  function Flipped(g: Tree): Tree
    requires g.Branch? && g.left.Branch? && g.right.Branch?
  {
    Branch(g.node, true, Recoloured(g.left, false), Recoloured(g.right, false))
  }

  /** The uncle is black: the new node, if it is the inner grandchild, is rotated out, and its parent takes the
      place of its grandparent. */
  function Lifted(g: Tree, l: Index, inner: bool): Tree
    requires g.Branch? && Kid(g, l).Branch? && (inner ==> Kid(Kid(g, l), Other(l)).Branch?)
  {
    var p := if inner then Rotated(Kid(g, l), l) else Kid(g, l);
    Rotated(Make(g.node, true, l, Recoloured(p, false), Kid(g, Other(l))), Other(l))
  }

  lemma FlippedSame(g: Tree)
    requires g.Branch? && g.left.Branch? && g.right.Branch?
    ensures Seq(Flipped(g)) == Seq(g) && Flipped(g).Branch? && Flipped(g).node == g.node
  {}

  lemma LiftedSame(g: Tree, l: Index, inner: bool)
    requires g.Branch? && Kid(g, l).Branch? && (inner ==> Kid(Kid(g, l), Other(l)).Branch?)
    ensures Seq(Lifted(g, l, inner)) == Seq(g)
  {
    var p := if inner then Rotated(Kid(g, l), l) else Kid(g, l);
    if inner { RotatedSeq(Kid(g, l), l); }
    var q := Make(g.node, true, l, Recoloured(p, false), Kid(g, Other(l)));
    assert Seq(Recoloured(p, false)) == Seq(p) && Seq(q) == Seq(g);
    RotatedSeq(q, Other(l));
  }

  /** A red node under a red one, the only fault of the tree. */
  ghost predicate RedRed(c: Path, t: Tree) {
    && t.Branch? && t.red && Balanced(t) && Fits(c, Height(t)) && c.Step? && c.red && c.up.Step?
  }

  lemma MakeBalanced(n: Node, red: bool, i: Index, a: Tree, b: Tree)
    requires Balanced(a) && Balanced(b) && Height(a) == Height(b) && (red ==> IsBlack(a) && IsBlack(b))
    ensures Balanced(Make(n, red, i, a, b)) && Height(Make(n, red, i, a, b)) == Height(a) + if red then 0 else 1
  {}

  lemma BlackKids(t: Tree)
    requires Balanced(t) && t.Branch? && t.red
    ensures Balanced(Recoloured(t, false)) && Height(Recoloured(t, false)) == Height(t) + 1
    ensures forall i: Index :: IsBlack(Kid(t, i)) && Balanced(Kid(t, i)) && Height(Kid(t, i)) == Height(t)
  {}

  /** The family of a red node under a red one. */
  lemma Family(c: Path, t: Tree)
    requires RedRed(c, t)
    ensures !c.up.red && Balanced(c.other) && IsBlack(c.other) && Height(c.other) == Height(t)
    ensures Balanced(c.up.other) && Height(c.up.other) == Height(t) && Fits(c.up.up, Height(t) + 1)
  {
    assert Fits(c.up, Height(t));
  }

  lemma FlippedFits(c: Path, t: Tree)
    requires RedRed(c, t) && !IsBlack(c.up.other)
    ensures var f := Flipped(Make(c.up.node, false, c.up.side, Make(c.node, true, c.side, t, c.other), c.up.other));
            f.red && Balanced(f) && Fits(c.up.up, Height(f))
  {
    Family(c, t);
    BlackKids(c.up.other);
    MakeBalanced(c.node, false, c.side, t, c.other);
    var p := Make(c.node, false, c.side, t, c.other);
    MakeBalanced(c.up.node, true, c.up.side, p, Recoloured(c.up.other, false));
    hide Balanced, Height, Fits;
  }

  lemma LiftedFits(c: Path, t: Tree)
    requires RedRed(c, t) && IsBlack(c.up.other)
    ensures var f := Lifted(Make(c.up.node, false, c.up.side, Make(c.node, true, c.side, t, c.other), c.up.other),
                            c.up.side, c.side != c.up.side);
            !f.red && Balanced(f) && Fits(c.up.up, Height(f))
  {
    Family(c, t);
    BlackKids(t);
    var g, l, r := c.up, c.up.side, Other(c.up.side);
    hide Balanced, Height, Fits;
    if c.side == l {
      MakeBalanced(g.node, true, l, c.other, g.other);
      MakeBalanced(c.node, false, l, t, Make(g.node, true, l, c.other, g.other));
    } else {
      MakeBalanced(c.node, true, l, c.other, Kid(t, l));
      MakeBalanced(g.node, true, l, Kid(t, r), g.other);
      MakeBalanced(t.node, false, l, Make(c.node, true, l, c.other, Kid(t, l)), Make(g.node, true, l, Kid(t, r), g.other));
    }
  }

  lemma PlugSame(c: Path, t: Tree, t': Tree)
    requires Seq(t) == Seq(t')
    ensures Seq(Plug(c, t)) == Seq(Plug(c, t'))
  {
    PlugSeq(c, t);
    PlugSeq(c, t');
  }

  lemma NewNode(c: Path, n: Node)
    requires RedBlack(Plug(c, Leaf))
    ensures var t := Branch(n, true, Leaf, Leaf);
            Balanced(t) && Fits(c, Height(t)) && Seq(Plug(c, t)) == Before(c) + [n] + After(c)
  {
    UnplugRedBlack(c, Leaf);
    PlugSeq(c, Branch(n, true, Leaf, Leaf));
  }

  /** Seen from its grandparent, a tree whose parent is red. */
  function Grand(c: Path, t: Tree): Tree
    requires c.Step? && c.up.Step?
  {
    Make(c.up.node, c.up.red, c.up.side, Make(c.node, c.red, c.side, t, c.other), c.up.other)
  }

  /** A red node that is not the root has a parent. */
  lemma RedParent(c: Path, t: Tree)
    requires t.Branch? && t.red && Balanced(t) && Fits(c, Height(t)) && c.Step? && c.red
    ensures RedRed(c, t) && !c.up.red && Up(c.up) == c.up.node && Plug(c, t) == Plug(c.up.up, Grand(c, t))
  {}

  lemma InsertFlipped(c: Path, t: Tree)
    requires RedRed(c, t) && !IsBlack(c.up.other)
    ensures var f := Flipped(Grand(c, t));
            && f.Branch? && f.node == c.up.node
            && f.red && Balanced(f) && Fits(c.up.up, Height(f)) && Seq(Plug(c.up.up, f)) == Seq(Plug(c, t))
  {
    RedParent(c, t);
    FlippedFits(c, t);
    FlippedSame(Grand(c, t));
    PlugSame(c.up.up, Grand(c, t), Flipped(Grand(c, t)));
  }

  lemma InsertLifted(c: Path, t: Tree)
    requires RedRed(c, t) && IsBlack(c.up.other)
    ensures var l := Lifted(Grand(c, t), c.up.side, c.side != c.up.side);
            RedBlack(Plug(c.up.up, l)) && Seq(Plug(c.up.up, l)) == Seq(Plug(c, t))
  {
    RedParent(c, t);
    LiftedFits(c, t);
    var l := Lifted(Grand(c, t), c.up.side, c.side != c.up.side);
    LiftedSame(Grand(c, t), c.up.side, c.side != c.up.side);
    PlugSame(c.up.up, Grand(c, t), l);
    PlugRedBlack(c.up.up, l);
  }

  lemma InsertDone(c: Path, t: Tree)
    requires t.Branch? && Balanced(t) && Fits(c, Height(t)) && (c.Top? || !c.red)
    ensures c.Top? ==> RedBlack(Plug(c, Recoloured(t, false))) && Seq(Plug(c, Recoloured(t, false))) == Seq(Plug(c, t))
    ensures c.Step? ==> RedBlack(Plug(c, t))
  {
    if c.Step? { PlugRedBlack(c, t); } else { assert Plug(c, t) == t; }
  }

  lemma Siblings(m: Mem, root: Node?, c: Path, t: Tree)
    requires At(m, root, c, t) && c.Step? && (t.Branch? || c.other.Branch?)
    ensures Ref(t) != Ref(c.other)
  {
    assert t.Branch? ==> t.node in Elems(t);
    assert c.other.Branch? ==> c.other.node in Elems(c.other);
  }

  lemma RotateWritesAt(m: Mem, m': Mem, root: Node?, root': Node?, c: Path, t: Tree, i: Index, rnode: Node, g: Node?,
                       side: Index)
    requires At(m, root, c, t) && t.Branch? && rnode == Ref(Kid(t, Other(i))) && g == Ref(Kid(Kid(t, Other(i)), i))
    requires c.Step? ==> side == c.side
    requires root' == if c.Top? then rnode else root
    requires t.node in m && rnode in m && (g != null ==> g in m) && (Up(c) != null ==> Up(c) in m)
    requires m' == RotateWrites(m, t.node, rnode, g, Up(c), side, i)
    ensures At(m', root', c, Rotated(t, i))
  {
    RotateReads(m, root, c, t, i);
    hide At, Rep, RepPath, Tidy, TidyPath, Elems, Around;
    assert RotatedMem(m, m', c, t, i);
    RotateAt(m, m', root, root', c, t, i);
  }

  lemma RotateRefs(m: Mem, root: Node?, c: Path, t: Tree, i: Index) returns (child: Node, inner: Node?, side: Index)
    requires At(m, root, c, t) && t.Branch? && Kid(t, Other(i)).Branch?
    ensures child == Ref(Kid(t, Other(i))) && inner == Ref(Kid(Kid(t, Other(i)), i)) && t.node == Ref(t)
    ensures c.Step? ==> side == c.side
    ensures (Up(c) == null <==> c.Top?) && (inner != null ==> inner in m) && t.node in m && child in m && t.node != child
    ensures m[t.node].parent == Up(c) && ChildOf(m[t.node], Other(i)) == child && ChildOf(m[child], i) == inner
    ensures Up(c) != null ==> Up(c) in m && ChildOf(m[Up(c)], side) == t.node && ChildOf(m[Up(c)], Other(side)) != t.node
    ensures inner != t.node && inner != child && Up(c) != t.node && Up(c) != child && (Up(c) != null ==> Up(c) != inner)
  {
    RotateReads(m, root, c, t, i);
    hide At, Rep, RepPath, Tidy, TidyPath, Elems, Around;
    child, inner, side := Kid(t, Other(i)).node, Ref(Kid(Kid(t, Other(i)), i)), if c.Step? then c.side else LEFT;
  }

  lemma FocusOn(m: Mem, root: Node?, t: Tree, c: Path, u: Tree)
    requires At(m, root, Top, t) && Plug(c, u) == t
    ensures At(m, root, c, u)
  {
    Refocus(m, root, Top, t, c, u);
  }

  lemma FocusBack(m: Mem, root: Node?, c: Path, t: Tree)
    requires At(m, root, c, t)
    ensures At(m, root, Top, Plug(c, t))
  {
    Refocus(m, root, c, t, Top, Plug(c, t));
  }

  /** The nodes that insertion looks at, seen from the grandparent. */
  lemma GrandRefs(m: Mem, root: Node?, c: Path, t: Tree)
    requires At(m, root, c, t) && t.Branch? && c.Step? && c.up.Step?
    ensures var g, l := Grand(c, t), c.up.side;
            && g.Branch? && Ref(g) == c.up.node && Ref(Kid(g, l)) == c.node && Kid(g, Other(l)) == c.up.other
            && Kid(g, l).Branch? && var p := Kid(g, l);
            && (Ref(Kid(p, LEFT)) == t.node || Ref(Kid(p, RIGHT)) == t.node) && Ref(Kid(p, LEFT)) != Ref(Kid(p, RIGHT))
            && (t.node == Ref(Kid(p, Other(l))) <==> c.side != l)
            && (c.side != l ==> Kid(p, Other(l)).Branch?)
    ensures forall r: Index :: Kid(Grand(c, t), r) == if r == c.up.side then Make(c.node, c.red, c.side, t, c.other) else c.up.other
    ensures c.up.other.Branch? ==> Grand(c, t).left.Branch? && Grand(c, t).right.Branch?
  {
    Siblings(m, root, c, t);
  }

  // ---------------------------------------------------------------- removal: links

  /** Memory once a node with the only child u has given it its place. */
  ghost predicate SplicedMem(m: Mem, m': Mem, c: Path, n: Node, u: Node?) {
    && m'.Keys == m.Keys - {n}
    && forall x | x in m && x != n :: (m'[x] == (
         if x == u then WithParent(m[x], Up(c))
         else if c.Step? && x == c.node then WithChild(m[x], c.side, u)
         else m[x]))
  }

  /** Memory once node s has taken the place of the root of t. */
  ghost predicate ReplacedMem(m: Mem, m': Mem, c: Path, t: Tree, s: Node)
    requires t.Branch? && t.node in m
  {
    && m'.Keys == m.Keys - {t.node} + {s} && m'[s] == m[t.node]
    && forall x | x in m && x != t.node :: (m'[x] == (
         if x == Ref(t.left) || x == Ref(t.right) then WithParent(m[x], s)
         else if c.Step? && x == c.node then WithChild(m[x], c.side, s)
         else m[x]))
  }

  /** A node with an empty child gives its place to its other child. */
  lemma SpliceAt(m: Mem, m': Mem, root: Node?, root': Node?, c: Path, t: Tree, u: Tree)
    requires At(m, root, c, t) && t.Branch? && (t == Branch(t.node, t.red, Leaf, u) || t == Branch(t.node, t.red, u, Leaf))
    requires SplicedMem(m, m', c, t.node, Ref(u))
    requires root' == if c.Top? then Ref(u) else root
    ensures At(m', root', c, u)
  {
    assert u.Branch? ==> u.node in Elems(u);
    RepIn(m, t, Up(c));
    PathIn(m, root, c, t.node);
    Moved(m, m', u, t.node, Up(c));
    assert c.Step? ==> c.node in Around(c);
    Relinked(m, m', root, root', c, t.node, Ref(u));
  }

  /** Another node takes the place, the colour and the children of a node. */
  lemma ReplaceAt(m: Mem, m': Mem, root: Node?, root': Node?, c: Path, t: Tree, s: Node)
    requires At(m, root, c, t) && t.Branch? && s !in m && t.node in m && ReplacedMem(m, m', c, t, s)
    requires root' == if c.Top? then s else root
    ensures At(m', root', c, Branch(s, t.red, t.left, t.right))
  {
    RepIn(m, t, Up(c));
    PathIn(m, root, c, t.node);
    assert t.left.Branch? ==> t.left.node in Elems(t.left);
    assert t.right.Branch? ==> t.right.node in Elems(t.right);
    assert c.Step? ==> c.node in Around(c);
    Moved(m, m', t.left, t.node, s);
    Moved(m, m', t.right, t.node, s);
    Relinked(m, m', root, root', c, t.node, s);
  }

  /** The path d continued by the path e. */
  function Graft(d: Path, e: Path): Path {
    match d
    case Top => e
    case Step(up, n, red, side, other) => Step(Graft(up, e), n, red, side, other)
  }

  /** The path to the first node of a tree. */
  ghost predicate AllLeft(d: Path) { d.Step? ==> d.side == LEFT && AllLeft(d.up) }

  lemma {:induction false} PlugGraft(d: Path, e: Path, t: Tree)
    ensures Plug(Graft(d, e), t) == Plug(e, Plug(d, t))
  {
    if d.Step? { PlugGraft(d.up, e, Make(d.node, d.red, d.side, t, d.other)); }
  }

  lemma {:induction false} AllLeftFirst(d: Path)
    requires AllLeft(d)
    ensures Before(d) == []
  {
    if d.Step? { AllLeftFirst(d.up); }
  }

  lemma {:induction false} FitsRenamed(d: Path, c: Path, n: Node, s: Node, red: bool, other: Tree, h: nat)
    requires Fits(Graft(d, Step(c, n, red, RIGHT, other)), h)
    ensures Fits(Graft(d, Step(c, s, red, RIGHT, other)), h)
  {
    if d.Step? { FitsRenamed(d.up, c, n, s, red, other, if d.red then h else h + 1); }
  }

  lemma {:induction false} RefPlug(d: Path, t: Tree, u: Tree)
    requires d.Step?
    ensures Ref(Plug(d, t)) == Ref(Plug(d, u))
  {
    if d.up.Step? {
      RefPlug(d.up, Make(d.node, d.red, d.side, t, d.other), Make(d.node, d.red, d.side, u, d.other));
    } else {
      assert Plug(d, t) == Make(d.node, d.red, d.side, t, d.other) && Plug(d, u) == Make(d.node, d.red, d.side, u, d.other);
    }
  }

  /** The node t with two children, whose successor s, of right child x, is at the end of path d in its right
      subtree. */
  datatype Swap = Swap(c: Path, node: Node, red: bool, left: Tree, d: Path, s: Node, sred: bool, x: Tree) {
    function Last(): Tree { Branch(s, sred, Leaf, x) }
    function Whole(): Tree { Branch(node, red, left, Plug(d, Last())) }
    function Before(): Path { Graft(d, Step(c, node, red, RIGHT, left)) }
    function After(): Path { Graft(d, Step(c, s, red, RIGHT, left)) }
  }

  /** The nodes written when a node gives its place to its successor are distinct. */
  lemma SwapApart(m: Mem, root: Node?, w: Swap)
    requires At(m, root, w.c, w.Whole()) && w.left.Branch?
    ensures w.node in m && m[w.node] == Cell(w.red, Up(w.c), w.left.node, Ref(Plug(w.d, w.Last())))
    ensures w.s in m && w.left.node in m && w.node != w.s && w.left.node != w.node && w.left.node != w.s
    ensures w.d.Step? ==> w.d.node in m && w.d.node != w.node && w.d.node != w.s && w.d.node != w.left.node
    ensures w.x.Branch? ==> w.x.node in m && w.x.node != w.node && w.x.node != w.s && w.x.node != w.left.node && w.x.node != Up(w.d)
    ensures w.c.Step? ==> w.c.node in m && w.c.node !in Elems(w.Whole()) && w.node in Elems(w.Whole()) && w.s in Elems(w.Whole())
    ensures w.c.Step? ==> w.left.node in Elems(w.Whole()) && (w.x.Branch? ==> w.x.node in Elems(w.Whole()))
    ensures w.c.Step? && w.d.Step? ==> w.d.node in Elems(w.Whole()) && Ref(Plug(w.d, w.Last())) in Elems(w.Whole())
  {
    PlugTidy(w.d, w.Last());
    RepIn(m, w.Whole(), Up(w.c));
    assert w.d.Step? ==> w.d.node in Around(w.d);
    assert w.s in Elems(w.Last()) && w.left.node in Elems(w.left) && (w.x.Branch? ==> w.x.node in Elems(w.x));
    assert w.x.Branch? ==> w.x.node in Elems(w.Last());
    assert w.c.Step? ==> w.c.node in Around(w.c);
    assert Tidy(w.Last());
  }

  /** Memory once the successor has taken the place of the node, and its child the place of the successor. */
  ghost predicate SwappedMem(m: Mem, m': Mem, w: Swap)
    requires w.left.Branch?
  {
    var r, x := Ref(Plug(w.d, w.Last())), Ref(w.x);
    && m'.Keys == m.Keys - {w.node}
    && w.s in m' && m'[w.s] == Cell(w.red, Up(w.c), w.left.node, if w.d.Top? then x else r)
    && forall n | n in m && n != w.node && n != w.s :: (m'[n] == (
         if w.c.Step? && n == w.c.node then WithChild(m[n], w.c.side, w.s)
         else if n == w.left.node then WithParent(m[n], w.s)
         else if w.d.Top? then m[n]
         else if n == w.d.node then
           if n == r then WithParent(WithChild(m[n], LEFT, x), w.s) else WithChild(m[n], LEFT, x)
         else if n == r then WithParent(m[n], w.s)
         else if n == x then WithParent(m[n], w.d.node)
         else m[n]))
  }

  function SplicedMap(m: Mem, c: Path, n: Node, u: Node?): Mem {
    map x | x in m && x != n ::
      if x == u then WithParent(m[x], Up(c)) else if c.Step? && x == c.node then WithChild(m[x], c.side, u) else m[x]
  }

  /** Splicing the successor out, and then putting it in the place of the node, comes to the same. */
  lemma SwapIsReplace(m: Mem, m': Mem, root: Node?, w: Swap)
    requires At(m, root, w.c, w.Whole()) && w.left.Branch? && AllLeft(w.d) && SwappedMem(m, m', w)
    requires w.d.Top? ==> Plug(w.d, w.x) == w.x && Plug(w.d, w.Last()) == w.Last()
    requires w.d.Step? ==> Ref(Plug(w.d, w.x)) == Ref(Plug(w.d, w.Last()))
    requires w.x.Branch? ==> w.x.node in m && m[w.x.node].parent == w.s
    ensures var ms := SplicedMap(m, w.Before(), w.s, Ref(w.x));
            w.node in ms && ReplacedMem(ms, m', w.c, Branch(w.node, w.red, w.left, Plug(w.d, w.x)), w.s)
  {
    SwapApart(m, root, w);
    hide At, Tidy, TidyPath, Plug, Elems;
    var ms := SplicedMap(m, w.Before(), w.s, Ref(w.x));
    var t := Branch(w.node, w.red, w.left, Plug(w.d, w.x));
    assert w.Before().Step? && Up(w.Before()) == if w.d.Top? then w.node else w.d.node;
    assert m'.Keys == ms.Keys - {t.node} + {w.s};
    assert m'[w.s] == ms[t.node];
  }

  lemma SplicedMapMem(m: Mem, c: Path, n: Node, u: Node?)
    ensures SplicedMem(m, SplicedMap(m, c, n, u), c, n, u)
  {}

  lemma SwapShapes(w: Swap)
    ensures Plug(w.Before(), w.Last()) == Plug(w.c, w.Whole())
    ensures Plug(w.Before(), w.x) == Plug(w.c, Branch(w.node, w.red, w.left, Plug(w.d, w.x)))
    ensures Plug(w.After(), w.x) == Plug(w.c, Branch(w.s, w.red, w.left, Plug(w.d, w.x)))
    ensures w.d.Top? ==> Plug(w.d, w.x) == w.x && Plug(w.d, w.Last()) == w.Last()
    ensures w.d.Step? ==> Ref(Plug(w.d, w.x)) == Ref(Plug(w.d, w.Last()))
    ensures w.Before().Step?
  {
    PlugGraft(w.d, Step(w.c, w.node, w.red, RIGHT, w.left), w.Last());
    PlugGraft(w.d, Step(w.c, w.node, w.red, RIGHT, w.left), w.x);
    PlugGraft(w.d, Step(w.c, w.s, w.red, RIGHT, w.left), w.x);
    if w.d.Step? { RefPlug(w.d, w.x, w.Last()); }
  }

  lemma SwapAt(m: Mem, m': Mem, root: Node?, root': Node?, w: Swap)
    requires At(m, root, w.c, w.Whole()) && w.left.Branch? && AllLeft(w.d) && SwappedMem(m, m', w)
    requires root' == if w.c.Top? then w.s else root
    ensures At(m', root', w.After(), w.x)
  {
    SwapShapes(w);
    var t := Branch(w.node, w.red, w.left, Plug(w.d, w.x));
    Refocus(m, root, w.c, w.Whole(), w.Before(), w.Last());
    Reads(m, root, w.Before(), w.Last());
    LastParent(m, root, w.Before(), w.Last(), w.x);
    SwapIsReplace(m, m', root, w);
    var ms := SplicedMap(m, w.Before(), w.s, Ref(w.x));
    SplicedMapMem(m, w.Before(), w.s, Ref(w.x));
    hide At, SplicedMem, SplicedMap, ReplacedMem, SwappedMem, Plug, Graft, AllLeft;
    SpliceAt(m, ms, root, root, w.Before(), w.Last(), w.x);
    Refocus(ms, root, w.Before(), w.x, w.c, t);
    ReplaceAt(ms, m', root, root', w.c, t, w.s);
    Refocus(m', root', w.c, Branch(w.s, w.red, w.left, Plug(w.d, w.x)), w.After(), w.x);
  }

  lemma LastParent(m: Mem, root: Node?, c: Path, t: Tree, x: Tree)
    requires At(m, root, c, t) && t.Branch? && t.right == x
    ensures x.Branch? ==> x.node in m && m[x.node].parent == t.node
  {
    assert Rep(m, t.right, t.node);
  }

  /** The successor takes the place, the colour and the left child of the node. */
  function Adopted(m: Mem, node: Node, s: Node, parent: Node?, side: Index, left: Node): (r: Mem)
    requires node in m && s in m && left in m && (parent != null ==> parent in m)
    ensures r.Keys == m.Keys
  {
    var m1 := Linked(m, parent, side, s);
    var m2 := m1[s := m1[s].(red := m1[node].red, parent := m1[node].parent, left := left)];
    m2[left := WithParent(m2[left], s)]
  }

  /** The successor takes the right child of the node too, and leaves its own to its parent. */
  function Yielded(m: Mem, s: Node, right: Node, parent: Node, child: Node?): (r: Mem)
    requires s in m && right in m && parent in m && (child != null ==> child in m)
    ensures r.Keys == m.Keys
  {
    var m1 := m[s := WithChild(m[s], RIGHT, right)];
    var m2 := m1[right := WithParent(m1[right], s)];
    var m3 := m2[parent := WithChild(m2[parent], LEFT, child)];
    if child == null then m3 else m3[child := WithParent(m3[child], parent)]
  }

  /** The references used when a node gives its place to its successor. */
  lemma SwapRefs(m: Mem, root: Node?, w: Swap)
    requires At(m, root, w.c, w.Whole()) && w.left.Branch?
    ensures w.node in m && w.s in m && w.left.node in m && (w.c.Step? ==> w.c.node in m) && (w.x.Branch? ==> w.x.node in m)
    ensures w.d.Step? ==> w.d.node in m && Ref(Plug(w.d, w.Last())) != null && Ref(Plug(w.d, w.Last())) in m
    ensures m[w.s].right == Ref(w.x) && m[w.s].red == w.sred
  {
    SwapApart(m, root, w);
    SwapShapes(w);
    Refocus(m, root, w.c, w.Whole(), w.Before(), w.Last());
    Reads(m, root, w.Before(), w.Last());
    if w.d.Step? {
      PlugTidy(w.d, w.Last());
      assert Rep(m, Plug(w.d, w.Last()), w.node);
      RefIn(w.d, w.Last());
    }
  }

  lemma {:induction false} RefIn(d: Path, t: Tree)
    requires d.Step?
    ensures Plug(d, t).Branch?
  {
    if d.up.Step? { RefIn(d.up, Make(d.node, d.red, d.side, t, d.other)); } else {
      assert Plug(d, t) == Make(d.node, d.red, d.side, t, d.other);
    }
  }

  lemma SwapWritesTop(m: Mem, root: Node?, w: Swap, side: Index)
    requires At(m, root, w.c, w.Whole()) && w.left.Branch? && w.d.Top? && (w.c.Step? ==> side == w.c.side)
    requires w.node in m && w.s in m && w.left.node in m && (w.c.Step? ==> w.c.node in m) && m[w.s].right == Ref(w.x)
    ensures SwappedMem(m, Adopted(m, w.node, w.s, Up(w.c), side, w.left.node) - {w.node}, w)
  {
    SwapApart(m, root, w);
    hide At, Tidy, TidyPath, Plug, Elems;
  }

  lemma SwapWrites(m: Mem, above: Node?, side: Index, n: Node, s: Node, l: Node, r: Node, p: Node, x: Node?)
    requires n in m && s in m && l in m && r in m && p in m && (above != null ==> above in m) && (x != null ==> x in m)
    requires n != s && l != n && l != s && r != n && r != s && r != l && r != x && p != n && p != s && p != l && p != x
    requires x != null ==> x != n && x != s && x != l
    requires above != null ==> above !in {n, s, l, r, p} && above != x
    ensures var m' := Yielded(Adopted(m, n, s, above, side, l), s, r, p, x);
            && m'[s] == Cell(m[n].red, m[n].parent, l, r)
            && forall k | k in m && k != n && k != s :: (m'[k] == (
                 if k == above then WithChild(m[k], side, s)
                 else if k == l then WithParent(m[k], s)
                 else if k == p then if k == r then WithParent(WithChild(m[k], LEFT, x), s) else WithChild(m[k], LEFT, x)
                 else if k == r then WithParent(m[k], s)
                 else if k == x then WithParent(m[k], p)
                 else m[k]))
  {}

  lemma SwapWritesStep(m: Mem, root: Node?, w: Swap, side: Index, r: Node)
    requires At(m, root, w.c, w.Whole()) && w.left.Branch? && w.d.Step? && (w.c.Step? ==> side == w.c.side)
    requires w.node in m && w.s in m && w.left.node in m && (w.c.Step? ==> w.c.node in m) && m[w.s].right == Ref(w.x)
    requires r in m && r == Ref(Plug(w.d, w.Last())) && w.d.node in m && (w.x.Branch? ==> w.x.node in m)
    requires r != w.s && r != w.left.node && r != w.node && r != Ref(w.x)
    ensures SwappedMem(m, Yielded(Adopted(m, w.node, w.s, Up(w.c), side, w.left.node), w.s, r, w.d.node, Ref(w.x)) - {w.node}, w)
  {
    hide At, Tidy, TidyPath, Plug, Elems, Adopted, Yielded, WithChild, WithParent;
    SwapApart(m, root, w);
    SwapWrites(m, Up(w.c), side, w.node, w.s, w.left.node, r, w.d.node, Ref(w.x));
  }

  // ---------------------------------------------------------------- removal: colours

  function Blackened(t: Tree): Tree { if t.Leaf? then t else Recoloured(t, false) }

  /** One black node is missing at the hole of c. */
  ghost predicate Short(c: Path, t: Tree) {
    Balanced(Blackened(t)) && Fits(c, Height(t) + 1)
  }

  function Depth(c: Path): nat { if c.Top? then 0 else 1 + Depth(c.up) }

  /** The loop stops at the next iteration on a red child. */
  function Work(c: Path, t: Tree): nat { if IsBlack(t) then 1 + Depth(c) else 0 }

  lemma ShortDone(c: Path, t: Tree)
    requires Short(c, t)
    ensures !IsBlack(t) ==> RedBlack(Plug(c, Blackened(t)))
    ensures IsBlack(t) && c.Top? ==> RedBlack(Plug(c, t))
    ensures Seq(Plug(c, Blackened(t))) == Seq(Plug(c, t))
  {
    PlugSame(c, t, Blackened(t));
    if !IsBlack(t) { PlugRedBlack(c, Blackened(t)); } else { assert Plug(Top, t) == t; }
  }

  /** The brother of a black child is never empty, and a red one is under a black parent. */
  lemma Brother(c: Path, t: Tree)
    requires Short(c, t) && c.Step?
    ensures c.other.Branch? && Balanced(c.other) && Height(c.other) == Height(t) + 1
    ensures c.other.red ==> !c.red && c.other.left.Branch? && c.other.right.Branch?
  {}

  /** The hole once a red brother has been rotated above the parent. */
  function Turned(c: Path): Path
    requires c.Step? && c.other.Branch?
  {
    var b := c.other;
    Step(Step(c.up, b.node, false, c.side, Kid(b, Other(c.side))), c.node, true, c.side, Kid(b, c.side))
  }

  lemma TurnedShort(c: Path, t: Tree)
    requires Short(c, t) && c.Step? && IsBlack(t) && !IsBlack(c.other)
    ensures Short(Turned(c), t) && IsBlack(Turned(c).other)
    ensures Turned(c).Step? && Turned(c).node == c.node && Turned(c).side == c.side && Turned(c).red
    ensures Seq(Plug(Turned(c), t)) == Seq(Plug(c, t))
  {
    BlackKids(c.other);
    assert Fits(Turned(c).up, Height(t) + 1);
    var b := c.other;
    var p := Make(c.node, true, c.side, t, Recoloured(b, false));
    RotatedSeq(p, c.side);
    assert Seq(Recoloured(b, false)) == Seq(b);
    assert Seq(Make(c.node, c.red, c.side, t, c.other)) == Seq(p);
    PlugSame(c.up, Make(c.node, c.red, c.side, t, c.other), Rotated(p, c.side));
    assert Plug(Turned(c), t) == Plug(Turned(c).up, Make(c.node, true, c.side, t, Kid(b, c.side)));
  }

  /** Both nephews are black: the brother turns red, and the fault moves to the parent. */
  function Faded(c: Path, t: Tree): Tree
    requires c.Step? && c.other.Branch?
  {
    Make(c.node, c.red, c.side, t, Recoloured(c.other, true))
  }

  lemma FadedShort(c: Path, t: Tree)
    requires Short(c, t) && c.Step? && IsBlack(t) && c.other.Branch? && !c.other.red
    requires IsBlack(c.other.left) && IsBlack(c.other.right)
    ensures Faded(c, t).Branch? && Faded(c, t).node == c.node
    ensures Short(c.up, Faded(c, t)) && Work(c.up, Faded(c, t)) <= Depth(c)
    ensures c.red ==> Work(c.up, Faded(c, t)) == 0
    ensures Seq(Plug(c.up, Faded(c, t))) == Seq(Plug(c, t))
  {
    MakeBalanced(c.node, false, c.side, t, Recoloured(c.other, true));
    assert Seq(Recoloured(c.other, true)) == Seq(c.other);
    PlugSame(c.up, Make(c.node, c.red, c.side, t, c.other), Faded(c, t));
  }

  /** The brother, rotated if need be so that its far child is red. */
  function Leant(b: Tree, l: Index): Tree
    requires b.Branch? && (!IsBlack(b.left) || !IsBlack(b.right))
  {
    if IsBlack(Kid(b, Other(l))) then
      Rotated(Make(b.node, true, l, Recoloured(Kid(b, l), false), Kid(b, Other(l))), Other(l))
    else b
  }

  lemma LeantBalanced(b: Tree, l: Index)
    requires b.Branch? && !b.red && Balanced(b) && (!IsBlack(b.left) || !IsBlack(b.right))
    ensures var x := Leant(b, l);
            && x.Branch? && !x.red && Seq(x) == Seq(b) && !IsBlack(Kid(x, Other(l)))
            && Balanced(Kid(x, l)) && Height(Kid(x, l)) + 1 == Height(b)
            && Balanced(Recoloured(Kid(x, Other(l)), false)) && Height(Recoloured(Kid(x, Other(l)), false)) == Height(b)
  {
    var r := Other(l);
    if IsBlack(Kid(b, r)) {
      BlackKids(Kid(b, l));
      var k := Recoloured(Kid(b, l), false);
      var q := Make(b.node, true, l, k, Kid(b, r));
      assert Seq(k) == Seq(Kid(b, l)) && Seq(q) == Seq(b);
      RotatedSeq(q, r);
      MakeBalanced(b.node, false, r, Kid(b, r), Kid(k, r));
    } else {
      BlackKids(Kid(b, r));
    }
  }

  /** The last rotation: the brother takes the place and the colour of the parent. */
  function Mended(c: Path, t: Tree, x: Tree): Tree
    requires c.Step? && x.Branch? && Kid(x, Other(c.side)).Branch?
  {
    var l, r := c.side, Other(c.side);
    Rotated(Make(c.node, false, l, t, Make(x.node, c.red, l, Kid(x, l), Recoloured(Kid(x, r), false))), l)
  }

  lemma MendedRedBlack(c: Path, t: Tree)
    requires Short(c, t) && c.Step? && IsBlack(t) && c.other.Branch? && !c.other.red
    requires !IsBlack(c.other.left) || !IsBlack(c.other.right)
    ensures Leant(c.other, c.side).Branch? && Kid(Leant(c.other, c.side), Other(c.side)).Branch?
    ensures var m := Mended(c, t, Leant(c.other, c.side));
            RedBlack(Plug(c.up, m)) && Seq(Plug(c.up, m)) == Seq(Plug(c, t))
  {
    var l, r := c.side, Other(c.side);
    var x := Leant(c.other, l);
    LeantBalanced(c.other, l);
    var far := Recoloured(Kid(x, r), false);
    MakeBalanced(c.node, false, l, t, Kid(x, l));
    MakeBalanced(x.node, c.red, l, Make(c.node, false, l, t, Kid(x, l)), far);
    var m := Mended(c, t, x);
    assert m == Make(x.node, c.red, l, Make(c.node, false, l, t, Kid(x, l)), far);
    PlugRedBlack(c.up, m);
    MendedSeq(c, t, x);
    PlugSame(c.up, Make(c.node, c.red, l, t, c.other), m);
  }

  lemma MendedSeq(c: Path, t: Tree, x: Tree)
    requires c.Step? && x.Branch? && Kid(x, Other(c.side)).Branch? && Seq(x) == Seq(c.other)
    ensures Seq(Mended(c, t, x)) == Seq(Make(c.node, c.red, c.side, t, c.other))
  {
    var l, r := c.side, Other(c.side);
    var far := Recoloured(Kid(x, r), false);
    assert Seq(far) == Seq(Kid(x, r));
    var y := Make(x.node, c.red, l, Kid(x, l), far);
    assert Seq(y) == Seq(x);
    RotatedSeq(Make(c.node, false, l, t, y), l);
  }

  lemma ToSibling(m: Mem, root: Node?, c: Path, t: Tree)
    requires At(m, root, c, t) && c.Step?
    ensures At(m, root, Step(c.up, c.node, c.red, Other(c.side), t), c.other)
  {
    Refocus(m, root, c, t, Step(c.up, c.node, c.red, Other(c.side), t), c.other);
  }

  lemma ToParent(m: Mem, root: Node?, c: Path, t: Tree)
    requires At(m, root, c, t) && c.Step?
    ensures At(m, root, c.up, Make(c.node, c.red, c.side, t, c.other))
  {
    Refocus(m, root, c, t, c.up, Make(c.node, c.red, c.side, t, c.other));
  }

  lemma ToChild(m: Mem, root: Node?, c: Path, t: Tree, i: Index)
    requires At(m, root, c, t) && t.Branch?
    ensures At(m, root, Step(c, t.node, t.red, i, Kid(t, Other(i))), Kid(t, i))
  {
    Refocus(m, root, c, t, Step(c, t.node, t.red, i, Kid(t, Other(i))), Kid(t, i));
  }

  lemma MendedSame(c: Path, e: Path, t: Tree)
    requires c.Step? && e.Step? && e == c.(other := e.other) && e.other.Branch? && Kid(e.other, Other(c.side)).Branch?
    ensures Mended(e, t, e.other) == Mended(c, t, e.other)
  {}

  // ---------------------------------------------------------------- removal: contents

  function Without(s: seq<Node>, n: Node): seq<Node> {
    if s == [] then [] else if s[0] == n then s[1..] else [s[0]] + Without(s[1..], n)
  }

  lemma {:induction false} WithoutAt(xs: seq<Node>, n: Node, ys: seq<Node>)
    requires n !in xs
    ensures Without(xs + [n] + ys, n) == xs + ys
  {
    if xs != [] {
      WithoutAt(xs[1..], n, ys);
      assert (xs + [n] + ys)[1..] == xs[1..] + [n] + ys;
      assert [xs[0]] + (xs[1..] + ys) == xs + ys;
    } else {
      assert xs + [n] + ys == [n] + ys && (([n] + ys)[1..]) == ys;
    }
  }

  lemma {:induction false} BeforeElems(c: Path)
    ensures forall n | n in Before(c) :: n in Around(c)
  {
    if c.Step? {
      BeforeElems(c.up);
      SeqElems(c.other);
      forall n | n in Before(c) ensures n in Around(c) {
        assert n in Before(c.up) || n in Seq(c.other) || n == c.node;
        assert n in Seq(c.other) ==> n in Elems(c.other);
      }
    }
  }

  lemma Assoc(a: seq<Node>, b: seq<Node>, c: seq<Node>)
    ensures (a + b) + c == a + (b + c)
  {}

  lemma Middle(b: seq<Node>, l: seq<Node>, n: Node, r: seq<Node>, a: seq<Node>)
    requires n !in b && n !in l
    ensures Without(b + (l + [n] + r) + a, n) == b + (l + r) + a
  {
    WithoutAt(b + l, n, r + a);
    Assoc(b, l + [n], r);
    Assoc(b, l, [n]);
    Assoc(b + (l + [n]), r, a);
    Assoc(b + l, r, a);
    Assoc(b, l, r);
  }

  lemma SpliceSeq(c: Path, t: Tree, u: Tree)
    requires t.Branch? && Tidy(t) && Elems(t) !! Around(c)
    requires t == Branch(t.node, t.red, Leaf, u) || t == Branch(t.node, t.red, u, Leaf)
    ensures Seq(Plug(c, u)) == Without(Seq(Plug(c, t)), t.node)
  {
    PlugSeq(c, t);
    PlugSeq(c, u);
    BeforeElems(c);
    SeqElems(t.left);
    Middle(Before(c), Seq(t.left), t.node, Seq(t.right), After(c));
    assert Seq(t.left) + Seq(t.right) == Seq(u);
  }

  /** What comes after the node, in its right subtree. */
  lemma SwapTail(w: Swap)
    requires AllLeft(w.d)
    ensures Seq(Plug(w.d, w.Last())) == [w.s] + Seq(Plug(w.d, w.x))
  {
    PlugSeq(w.d, w.Last());
    PlugSeq(w.d, w.x);
    AllLeftFirst(w.d);
    assert Seq(w.Last()) == [w.s] + Seq(w.x);
    Assoc([w.s], Seq(w.x), After(w.d));
    assert [] + Seq(w.x) == Seq(w.x) && [] + Seq(w.Last()) == Seq(w.Last());
  }

  lemma SwapSeq(w: Swap)
    requires Tidy(w.Whole()) && Elems(w.Whole()) !! Around(w.c) && AllLeft(w.d)
    ensures Seq(Plug(w.After(), w.x)) == Without(Seq(Plug(w.c, w.Whole())), w.node)
  {
    SwapShapes(w);
    var tail := Plug(w.d, w.x);
    PlugSeq(w.c, w.Whole());
    PlugSeq(w.c, Branch(w.s, w.red, w.left, tail));
    SwapTail(w);
    SwapApartSeq(w);
    hide Plug, Elems, Tidy, Around, Graft, AllLeft, Without;
    Middle(Before(w.c), Seq(w.left), w.node, [w.s] + Seq(tail), After(w.c));
    Assoc(Seq(w.left), [w.s], Seq(tail));
  }

  lemma SwapApartSeq(w: Swap)
    requires Tidy(w.Whole()) && Elems(w.Whole()) !! Around(w.c)
    ensures w.node !in Before(w.c) && w.node !in Seq(w.left)
  {
    BeforeElems(w.c);
    SeqElems(w.left);
    assert w.node in Elems(w.Whole());
  }

  /** Removing a red node breaks no rule; removing a black one leaves the tree short of one black node there. */
  lemma UnlinkShort(c: Path, t: Tree, u: Tree)
    requires t.Branch? && (t == Branch(t.node, t.red, Leaf, u) || t == Branch(t.node, t.red, u, Leaf))
    requires Balanced(t) && Fits(c, Height(t)) && (IsBlack(t) || (c.Step? && !c.red))
    ensures if t.red then RedBlack(Plug(c, u)) else Short(c, u)
  {
    assert Height(u) == 0 && Balanced(Blackened(u));
    if t.red { PlugRedBlack(c, u); }
  }

  lemma SpliceShort(c: Path, t: Tree, u: Tree)
    requires RedBlack(Plug(c, t)) && t.Branch? && (t == Branch(t.node, t.red, Leaf, u) || t == Branch(t.node, t.red, u, Leaf))
    ensures if t.red then RedBlack(Plug(c, u)) else Short(c, u)
  {
    UnplugRedBlack(c, t);
    UnlinkShort(c, t, u);
  }

  lemma SwapShort(w: Swap)
    requires RedBlack(Plug(w.c, w.Whole()))
    ensures if w.sred then RedBlack(Plug(w.After(), w.x)) else Short(w.After(), w.x)
  {
    SwapShapes(w);
    UnplugRedBlack(w.Before(), w.Last());
    FitsRenamed(w.d, w.c, w.node, w.s, w.red, w.left, Height(w.Last()));
    UnlinkShort(w.After(), w.Last(), w.x);
  }

  lemma {:induction false} Locate(c: Path, t: Tree, n: Node) returns (c': Path, t': Tree)
    requires n in Elems(t)
    ensures Plug(c', t') == Plug(c, t) && t'.Branch? && t'.node == n
    decreases t
  {
    if t.node == n {
      c', t' := c, t;
    } else if n in Elems(t.left) {
      c', t' := Locate(Step(c, t.node, t.red, LEFT, t.right), t.left, n);
    } else {
      c', t' := Locate(Step(c, t.node, t.red, RIGHT, t.left), t.right, n);
    }
  }

  /** The references used when a node gives its place to its only child. */
  lemma SpliceRefs(m: Mem, root: Node?, c: Path, t: Tree, u: Tree) returns (side: Index)
    requires At(m, root, c, t) && t.Branch? && (t == Branch(t.node, t.red, Leaf, u) || t == Branch(t.node, t.red, u, Leaf))
    ensures t.node in m && m[t.node].red == t.red && m[t.node].parent == Up(c) && (Ref(u) != null ==> Ref(u) in m)
    ensures Ref(u) != t.node && Up(c) != t.node && (Up(c) != null ==> Up(c) != Ref(u)) && (Up(c) == null <==> c.Top?)
    ensures Up(c) != null ==> Up(c) in m && ChildOf(m[Up(c)], side) == t.node && ChildOf(m[Up(c)], Other(side)) != t.node
    ensures c.Step? ==> side == c.side
  {
    side := if c.Step? then c.side else LEFT;
    RepIn(m, t, Up(c));
    Reads(m, root, c, t);
    if c.Step? { Siblings(m, root, c, t); }
    assert c.Step? ==> c.node in Around(c);
    assert u.Branch? ==> u.node in Elems(u) && u.node in Elems(t);
  }

  function SpliceMap(m: Mem, parent: Node?, child: Node?, side: Index): Mem
    requires (parent != null ==> parent in m) && (child != null ==> child in m)
  {
    Linked(if child == null then m else m[child := WithParent(m[child], parent)], parent, side, child)
  }

  lemma SpliceWrites(m: Mem, m': Mem, root: Node?, root': Node?, c: Path, t: Tree, u: Tree, side: Index)
    requires At(m, root, c, t) && t.Branch? && (t == Branch(t.node, t.red, Leaf, u) || t == Branch(t.node, t.red, u, Leaf))
    requires (Up(c) != null ==> Up(c) in m) && (Ref(u) != null ==> Ref(u) in m) && (c.Step? ==> side == c.side)
    requires m' == SpliceMap(m, Up(c), Ref(u), side) && root' == if Up(c) == null then Ref(u) else root
    ensures At(m' - {t.node}, root', c, u)
  {
    var s := SpliceRefs(m, root, c, t, u);
    SpliceAt(m, m' - {t.node}, root, root', c, t, u);
  }

  lemma InsertElems(c: Path, n: Node, t: Tree)
    requires Seq(t) == Before(c) + [n] + After(c)
    ensures Elems(t) == Elems(Plug(c, Leaf)) + {n}
  {
    var u := Plug(c, Leaf);
    PlugSeq(c, Leaf);
    SeqElems(t);
    SeqElems(u);
    assert Seq(u) == Before(c) + After(c);
    forall x ensures x in Elems(t) <==> x in Elems(u) + {n} {
      assert x in Elems(t) <==> x in Seq(t);
      assert x in Elems(u) <==> x in Seq(u);
    }
  }

  lemma {:induction false} RefAround(d: Path, t: Tree)
    requires d.Step?
    ensures Plug(d, t).Branch? && Plug(d, t).node in Around(d)
  {
    if d.up.Step? { RefAround(d.up, Make(d.node, d.red, d.side, t, d.other)); } else {
      assert Plug(d, t) == Make(d.node, d.red, d.side, t, d.other);
    }
  }

  /** What is read, and what is written, when a node gives its place to its successor. */
  ghost predicate ExchangeReady(m: Mem, w: Swap, side: Index) {
    && w.left.Branch?
    && w.node in m && w.s in m && w.left.node in m && w.node != w.s && w.left.node != w.node && w.left.node != w.s
    && m[w.node].left == w.left.node && m[w.node].parent == Up(w.c) && m[w.node].right == Ref(Plug(w.d, w.Last()))
    && m[w.s].right == Ref(w.x) && m[w.s].red == w.sred && m[w.s].parent == Up(w.Before())
    && (Ref(w.x) != null ==> Ref(w.x) in m)
    && (Up(w.c) != null ==>
          && Up(w.c) in m && Up(w.c) != w.node && Up(w.c) != w.s && Up(w.c) != w.left.node
          && ChildOf(m[Up(w.c)], side) == w.node && ChildOf(m[Up(w.c)], Other(side)) != w.node)
    && (Up(w.c) == null <==> w.c.Top?) && (w.c.Step? ==> side == w.c.side)
  }

  /** The parent of the successor. */
  ghost predicate ParentReady(m: Mem, w: Swap)
    requires w.left.Branch?
  {
    && (w.d.Top? ==> Up(w.Before()) == w.node && Up(w.After()) == w.s)
    && (w.d.Step? ==>
          && w.d.node in m && w.d.node != w.node && Up(w.Before()) == w.d.node && Up(w.After()) == w.d.node
          && var r := Ref(Plug(w.d, w.Last())); r != null && r in m && r != w.s && r != w.node && r != w.left.node && r != Ref(w.x))
  }

  lemma ExchangeRefs(m: Mem, root: Node?, w: Swap) returns (side: Index)
    requires At(m, root, w.c, w.Whole()) && w.left.Branch?
    ensures ExchangeReady(m, w, side)
  {
    side := if w.c.Step? then w.c.side else LEFT;
    SwapRefs(m, root, w);
    SwapApart(m, root, w);
    SwapShapes(w);
    Refocus(m, root, w.c, w.Whole(), w.Before(), w.Last());
    Reads(m, root, w.Before(), w.Last());
    Reads(m, root, w.c, w.Whole());
    if w.c.Step? { Siblings(m, root, w.c, w.Whole()); }
  }

  lemma ParentRefs(m: Mem, root: Node?, w: Swap)
    requires At(m, root, w.c, w.Whole()) && w.left.Branch?
    ensures ParentReady(m, w)
  {
    SwapRefs(m, root, w);
    SwapApart(m, root, w);
    if w.d.Step? {
      RefAround(w.d, w.Last());
      PlugTidy(w.d, w.Last());
      assert w.s in Elems(w.Last()) && w.left.node in Elems(w.left);
      assert w.x.Branch? ==> w.x.node in Elems(w.x) && w.x.node in Elems(w.Last());
    }
  }

  lemma ExchangedTop(m: Mem, m': Mem, root: Node?, root': Node?, w: Swap, side: Index)
    requires At(m, root, w.c, w.Whole()) && w.d.Top? && AllLeft(w.d) && ExchangeReady(m, w, side)
    requires m' == Adopted(m, w.node, w.s, Up(w.c), side, w.left.node)
    requires root' == if Up(w.c) == null then w.s else root
    ensures At(m' - {w.node}, root', w.After(), w.x)
  {
    hide At, Adopted, AllLeft, SwappedMem, Plug;
    SwapWritesTop(m, root, w, side);
    SwapAt(m, m' - {w.node}, root, root', w);
  }

  lemma ExchangedStep(m: Mem, m': Mem, root: Node?, root': Node?, w: Swap, side: Index, r: Node)
    requires At(m, root, w.c, w.Whole()) && w.d.Step? && AllLeft(w.d) && ExchangeReady(m, w, side) && ParentReady(m, w)
    requires r == Ref(Plug(w.d, w.Last()))
    requires m' == Yielded(Adopted(m, w.node, w.s, Up(w.c), side, w.left.node), w.s, r, w.d.node, Ref(w.x))
    requires root' == if Up(w.c) == null then w.s else root
    ensures At(m' - {w.node}, root', w.After(), w.x)
  {
    hide At, Adopted, Yielded, AllLeft, SwappedMem, Plug;
    SwapWritesStep(m, root, w, side, r);
    SwapAt(m, m' - {w.node}, root, root', w);
  }

  lemma SwapContents(m: Mem, root: Node?, w: Swap, whole: Tree)
    requires At(m, root, w.c, w.Whole()) && AllLeft(w.d) && Plug(w.c, w.Whole()) == whole && RedBlack(whole)
    ensures Seq(Plug(w.After(), w.x)) == Without(Seq(whole), w.node)
    ensures if w.sred then RedBlack(Plug(w.After(), w.x)) else Short(w.After(), w.x)
    ensures Elems(Plug(w.After(), w.x)) == Elems(whole) - {w.node}
  {
    SwapSeq(w);
    SwapShort(w);
    SwapElems(w);
  }

  lemma SwapElems(w: Swap)
    requires Tidy(w.Whole()) && Elems(w.Whole()) !! Around(w.c)
    ensures Elems(Plug(w.After(), w.x)) == Elems(Plug(w.c, w.Whole())) - {w.node}
  {
    SwapShapes(w);
    PlugTidy(w.c, w.Whole());
    PlugTidy(w.c, Branch(w.s, w.red, w.left, Plug(w.d, w.x)));
    PlugTidy(w.d, w.Last());
    PlugTidy(w.d, w.x);
    assert w.node in Elems(w.Whole());
  }

  lemma SpliceContents(m: Mem, root: Node?, c: Path, t: Tree, u: Tree, whole: Tree)
    requires At(m, root, c, t) && Plug(c, t) == whole && RedBlack(whole)
    requires t.Branch? && (t == Branch(t.node, t.red, Leaf, u) || t == Branch(t.node, t.red, u, Leaf))
    ensures Seq(Plug(c, u)) == Without(Seq(whole), t.node)
    ensures if t.red then RedBlack(Plug(c, u)) else Short(c, u)
    ensures Elems(Plug(c, u)) == Elems(whole) - {t.node}
  {
    SpliceSeq(c, t, u);
    SpliceShort(c, t, u);
    PlugTidy(c, t);
    PlugTidy(c, u);
  }

  lemma SameElems(t: Tree, u: Tree)
    requires Seq(t) == Seq(u)
    ensures Elems(t) == Elems(u)
  {
    SeqElems(t);
    SeqElems(u);
  }

  lemma Find(t: Tree, n: Node) returns (c: Path, u: Tree)
    requires n in Elems(t)
    ensures Plug(c, u) == t && u.Branch? && u.node == n
  {
    c, u := Locate(Top, t, n);
  }


  // ---------------------------------------------------------------- search

  ghost predicate Sorted(s: seq<Node>) { forall i, j | 0 <= i < j < |s| :: s[i].key < s[j].key }

  ghost predicate AllBelow(s: seq<Node>, k: int) { forall n | n in s :: n.key < k }

  ghost predicate AllAbove(s: seq<Node>, k: int) { forall n | n in s :: n.key > k }

  /** The hole of c is where a node with key k belongs. */
  ghost predicate Bounds(c: Path, k: int) { AllBelow(Before(c), k) && AllAbove(After(c), k) }

  lemma SortedSplit(a: seq<Node>, n: Node, b: seq<Node>)
    ensures Sorted(a + [n] + b) <==> Sorted(a) && Sorted(b) && AllBelow(a, n.key) && AllAbove(b, n.key)
  {
    var s := a + [n] + b;
    if Sorted(s) {
      assert forall i | 0 <= i < |a| :: a[i] == s[i];
      assert forall i | 0 <= i < |b| :: b[i] == s[|a| + 1 + i];
      assert s[|a|] == n;
    }
    if Sorted(a) && Sorted(b) && AllBelow(a, n.key) && AllAbove(b, n.key) {
      assert forall i | 0 <= i < |a| :: a[i] in a;
      assert forall i | 0 <= i < |b| :: b[i] in b;
    }
  }

  /** What comes before and after the root of t. */
  lemma PlugSplit(c: Path, t: Tree)
    requires t.Branch?
    ensures Seq(Plug(c, t)) == (Before(c) + Seq(t.left)) + [t.node] + (Seq(t.right) + After(c))
  {
    PlugSeq(c, t);
    Assoc(Before(c), Seq(t.left) + [t.node], Seq(t.right));
    Assoc(Before(c), Seq(t.left), [t.node]);
    Assoc(Before(c) + Seq(t.left) + [t.node], Seq(t.right), After(c));
  }

  lemma Narrow(c: Path, t: Tree, k: int)
    requires t.Branch? && Sorted(Seq(Plug(c, t))) && Bounds(c, k)
    ensures k < t.node.key ==> Bounds(Step(c, t.node, t.red, LEFT, t.right), k)
    ensures k > t.node.key ==> Bounds(Step(c, t.node, t.red, RIGHT, t.left), k)
  {
    PlugSplit(c, t);
    SortedSplit(Before(c) + Seq(t.left), t.node, Seq(t.right) + After(c));
    assert forall n | n in Seq(t.left) :: n in Before(c) + Seq(t.left);
    assert forall n | n in Seq(t.right) :: n in Seq(t.right) + After(c);
  }

  lemma NotFound(c: Path, k: int)
    requires Bounds(c, k)
    ensures forall n | n in Seq(Plug(c, Leaf)) :: n.key != k
  {
    PlugSeq(c, Leaf);
  }

  lemma Found(c: Path, t: Tree)
    requires t.Branch?
    ensures t.node in Seq(Plug(c, t))
  {
    PlugSplit(c, t);
  }

  /** The sequence with a new node at the place of its key. */
  function Inserted(s: seq<Node>, n: Node): seq<Node> {
    if s == [] || s[0].key > n.key then [n] + s else [s[0]] + Inserted(s[1..], n)
  }

  lemma {:induction false} InsertedAt(a: seq<Node>, n: Node, b: seq<Node>)
    requires AllBelow(a, n.key) && AllAbove(b, n.key)
    ensures Inserted(a + b, n) == a + [n] + b
  {
    if a == [] {
      assert a + b == b && a + [n] + b == [n] + b;
      if b != [] { assert b[0] in b; }
    } else {
      assert a[0] in a;
      InsertedAt(a[1..], n, b);
      assert (a + b)[1..] == a[1..] + b;
      assert [a[0]] + (a[1..] + [n] + b) == a + [n] + b;
    }
  }

  lemma InsertedSorted(a: seq<Node>, n: Node, b: seq<Node>)
    requires Sorted(a + b) && AllBelow(a, n.key) && AllAbove(b, n.key)
    ensures Sorted(a + [n] + b)
  {
    var s := a + b;
    assert forall i | 0 <= i < |a| :: a[i] == s[i];
    assert forall i | 0 <= i < |b| :: b[i] == s[|a| + i];
    SortedSplit(a, n, b);
  }

  lemma PlugEmpty(c: Path)
    ensures Seq(Plug(c, Leaf)) == Before(c) + After(c)
  {
    PlugSeq(c, Leaf);
  }

  lemma InsertedHere(c: Path, n: Node)
    requires Sorted(Seq(Plug(c, Leaf))) && Bounds(c, n.key)
    ensures Before(c) + [n] + After(c) == Inserted(Seq(Plug(c, Leaf)), n) && Sorted(Before(c) + [n] + After(c))
  {
    hide Sorted, Seq, Plug, Before, After, AllBelow, AllAbove, Inserted;
    PlugEmpty(c);
    InsertedAt(Before(c), n, After(c));
    InsertedSorted(Before(c), n, After(c));
  }

  // ---------------------------------------------------------------- neighbours

  /** The node next to the hole of c in a direction. */
  function Beyond(c: Path, dir: Index): Node? {
    if dir == RIGHT then if After(c) == [] then null else After(c)[0]
    else if Before(c) == [] then null else Before(c)[|Before(c)| - 1]
  }

  /** The first node of a tree, coming from side i. */
  function End(t: Tree, i: Index): Node? {
    if Seq(t) == [] then null else if i == LEFT then Seq(t)[0] else Seq(t)[|Seq(t)| - 1]
  }

  lemma BeyondUp(c: Path, dir: Index)
    requires c.Step?
    ensures Beyond(c, dir) == if c.side != dir then c.node else Beyond(c.up, dir)
  {
    assert c.side == RIGHT ==> Before(c)[|Before(c)| - 1] == c.node;
  }

  lemma EndDown(t: Tree, i: Index)
    requires t.Branch?
    ensures End(t, i) == if Kid(t, i).Leaf? then t.node else End(Kid(t, i), i)
  {
    assert Kid(t, i).Branch? ==> Kid(t, i).node in Seq(Kid(t, i));
  }

  /** r is the node next to n in the sequence. */
  ghost predicate NextTo(s: seq<Node>, n: Node, dir: Index, r: Node?) {
    exists k | 0 <= k < |s| && s[k] == n :: r == NextIn(s, k, dir)
  }

  function NextIn(s: seq<Node>, k: nat, dir: Index): Node?
    requires k < |s|
  {
    if dir == RIGHT then if k + 1 < |s| then s[k + 1] else null else if k > 0 then s[k - 1] else null
  }

  lemma NextSplit(a: seq<Node>, n: Node, b: seq<Node>, dir: Index)
    ensures NextTo(a + [n] + b, n, dir,
              if dir == RIGHT then if b == [] then null else b[0] else if a == [] then null else a[|a| - 1])
  {
    var s := a + [n] + b;
    assert s[|a|] == n;
    assert b != [] ==> s[|a| + 1] == b[0];
  }

  lemma NextAt(c: Path, t: Tree, dir: Index)
    requires t.Branch?
    ensures NextTo(Seq(Plug(c, t)), t.node, dir, if Kid(t, dir).Branch? then End(Kid(t, dir), Other(dir)) else Beyond(c, dir))
  {
    PlugSplit(c, t);
    var a, b := Before(c) + Seq(t.left), Seq(t.right) + After(c);
    NextSplit(a, t.node, b, dir);
    if Kid(t, dir).Branch? {
      assert Kid(t, dir).node in Seq(Kid(t, dir));
    } else {
      assert Seq(Kid(t, dir)) == [] && (dir == RIGHT ==> b == After(c)) && (dir == LEFT ==> a == Before(c));
    }
  }

  /** r is the node with the closest key on one side. */
  ghost predicate Nearest(s: seq<Node>, key: int, dir: Index, r: Node?) {
    if dir == RIGHT then
      && (r != null ==> r in s && r.key > key && forall n | n in s && n.key > key :: r.key <= n.key)
      && (r == null ==> forall n | n in s :: n.key <= key)
    else
      && (r != null ==> r in s && r.key < key && forall n | n in s && n.key < key :: n.key <= r.key)
      && (r == null ==> forall n | n in s :: n.key >= key)
  }

  lemma BeyondNearest(c: Path, key: int, dir: Index)
    requires Sorted(Seq(Plug(c, Leaf))) && Bounds(c, key)
    ensures Nearest(Seq(Plug(c, Leaf)), key, dir, Beyond(c, dir))
  {
    PlugEmpty(c);
    ClosestOf(Before(c), After(c), key, dir);
  }

  lemma ClosestOf(a: seq<Node>, b: seq<Node>, key: int, dir: Index)
    requires Sorted(a + b) && AllBelow(a, key) && AllAbove(b, key)
    ensures Nearest(a + b, key, dir,
              if dir == RIGHT then if b == [] then null else b[0] else if a == [] then null else a[|a| - 1])
  {
    var s := a + b;
    assert forall i | 0 <= i < |a| :: a[i] == s[i];
    assert forall i | 0 <= i < |b| :: b[i] == s[|a| + i];
  }

  // ---------------------------------------------------------------- postorder

  function Post(t: Tree): seq<Node> {
    if t.Leaf? then [] else Post(t.left) + Post(t.right) + [t.node]
  }

  /** What comes before and after the hole of c, in postorder. */
  function Lead(c: Path): seq<Node> {
    if c.Top? then [] else Lead(c.up) + if c.side == LEFT then [] else Post(c.other)
  }

  function Rest(c: Path): seq<Node> {
    if c.Top? then [] else (if c.side == LEFT then Post(c.other) else []) + ([c.node] + Rest(c.up))
  }

  lemma {:induction false} PlugPost(c: Path, t: Tree)
    ensures Post(Plug(c, t)) == Lead(c) + Post(t) + Rest(c)
  {
    if c.Step? {
      var u := Make(c.node, c.red, c.side, t, c.other);
      PlugPost(c.up, u);
      Assoc(Lead(c.up), Post(u), Rest(c.up));
      if c.side == LEFT {
        PostParts(Lead(c.up), [], Post(t), Post(c.other), c.node, Rest(c.up));
      } else {
        PostParts(Lead(c.up), Post(c.other), Post(t), [], c.node, Rest(c.up));
      }
    } else {
      assert [] + Post(t) + [] == Post(t);
    }
  }

  lemma PostParts(lead: seq<Node>, l: seq<Node>, t: seq<Node>, r: seq<Node>, n: Node, rest: seq<Node>)
    requires l == [] || r == []
    ensures lead + ((if l == [] then t + r else l + t) + [n]) + rest == (lead + l) + t + (r + ([n] + rest))
  {}

  /** Every node is visited exactly once. */
  lemma {:induction false} PostOnce(t: Tree)
    ensures multiset(Post(t)) == multiset(Seq(t))
  {
    if t.Branch? {
      PostOnce(t.left);
      PostOnce(t.right);
    }
  }

  /** Every node is visited before its parent. */
  lemma ChildrenFirst(c: Path, t: Tree)
    requires t.Branch? && c.Step?
    ensures var s := Post(Plug(c, t)); exists i, j :: 0 <= i < j < |s| && s[i] == t.node && s[j] == c.node
  {
    PlugPost(c, t);
    var s, b := Post(Plug(c, t)), Lead(c) + Post(t);
    var k := if c.side == LEFT then |Post(c.other)| else 0;
    assert Post(t)[|Post(t)| - 1] == t.node && Rest(c)[k] == c.node;
    assert b[|b| - 1] == t.node && s == b + Rest(c);
    assert s[|b| - 1] == t.node && s[|b| + k] == c.node;
  }

  /** Nothing comes before the hole of c, in postorder. */
  ghost predicate Foremost(c: Path) { c.Step? ==> (c.side == LEFT || c.other.Leaf?) && Foremost(c.up) }

  lemma {:induction false} ForemostLead(c: Path)
    requires Foremost(c)
    ensures Lead(c) == []
  {
    if c.Step? { ForemostLead(c.up); }
  }

  predicate IsSingle(t: Tree, n: Node) { t.Branch? && t == Branch(n, t.red, Leaf, Leaf) }

  lemma ForemostPost(c: Path, t: Tree)
    requires Foremost(c) && t.Branch? && IsSingle(t, t.node)
    ensures Post(Plug(c, t)) == [t.node] + Rest(c)
    ensures Rest(c) == [] <==> c.Top?
  {
    ForemostLead(c);
    PlugPost(c, t);
    assert Post(t) == [t.node] && [] + [t.node] == [t.node];
  }

  /** The tree without its first node in postorder. */
  lemma PrunedPost(c: Path, t: Tree)
    requires Foremost(c) && t.Branch? && IsSingle(t, t.node)
    ensures Post(Plug(c, Leaf)) == Rest(c)
  {
    ForemostLead(c);
    PlugPost(c, Leaf);
    assert [] + [] + Rest(c) == Rest(c);
  }

  lemma UnlinkAt(m: Mem, root: Node?, c: Path, t: Tree)
    requires At(m, root, c, t) && t.Branch? && c.Step?
    ensures c.node in m && At(Linked(m, c.node, c.side, null), root, c, Leaf)
  {
    PathIn(m, root, c, t.node);
    Relinked(m, Linked(m, c.node, c.side, null), root, root, c, t.node, null);
  }

  // ---------------------------------------------------------------- replacement

  /** The writes of rbtree_replace_slot. */
  function Copied(m: Mem, node: Node, prev: Node, left: Node?, right: Node?): Mem
    requires prev in m && (left != null ==> left in m) && (right != null ==> right in m)
  {
    var m1 := m[node := m[prev]];
    var m2 := if left == null then m1 else m1[left := WithParent(m1[left], node)];
    if right == null then m2 else m2[right := WithParent(m2[right], node)]
  }

  /** The references used to replace the root of t by node. */
  ghost predicate ReplaceReady(m: Mem, c: Path, t: Tree, node: Node)
    requires t.Branch?
  {
    && t.node in m && node in m && node != t.node && Ref(t.left) != t.node && Ref(t.right) != t.node
    && Ref(t.left) != node && Ref(t.right) != node && (Ref(t.left) == null || Ref(t.left) != Ref(t.right))
    && (Ref(t.left) != null ==> Ref(t.left) in m) && (Ref(t.right) != null ==> Ref(t.right) in m)
    && (c.Step? ==> c.node in m && c.node != t.node && c.node != node && c.node != Ref(t.left) && c.node != Ref(t.right))
    && m[t.node].left == Ref(t.left) && m[t.node].right == Ref(t.right)
  }

  lemma ReplaceRefs(m: Mem, m': Mem, root: Node?, c: Path, t: Tree, node: Node)
    requires At(m, root, c, t) && t.Branch? && node !in m && m'.Keys == m.Keys + {node}
    requires forall n | n in m :: m'[n] == m[n]
    ensures ReplaceReady(m', c, t, node)
  {
    RepIn(m, t, Up(c));
    PathIn(m, root, c, t.node);
    Reads(m, root, c, t);
    assert t.left.Branch? ==> t.left.node in Elems(t.left);
    assert t.right.Branch? ==> t.right.node in Elems(t.right);
    assert c.Step? ==> c.node in Around(c);
  }

  lemma ReplaceWritesAt(m: Mem, m0: Mem, root: Node?, root': Node?, c: Path, t: Tree, node: Node, side: Index)
    requires At(m, root, c, t) && t.Branch? && node !in m && m0.Keys == m.Keys + {node}
    requires forall n | n in m :: m0[n] == m[n]
    requires ReplaceReady(m0, c, t, node) && (c.Step? ==> side == c.side) && (Up(c) != null ==> Up(c) in m0)
    requires root' == if c.Top? then node else root
    ensures var m1 := Linked(m0, Up(c), side, node);
            At(Copied(m1, node, t.node, Ref(t.left), Ref(t.right)) - {t.node}, root', c, Branch(node, t.red, t.left, t.right))
  {
    hide At, Elems, Around;
    Reads(m, root, c, t);
    var m' := Copied(Linked(m0, Up(c), side, node), node, t.node, Ref(t.left), Ref(t.right)) - {t.node};
    assert ReplacedMem(m, m', c, t, node);
    ReplaceAt(m, m', root, root', c, t, node);
  }

  lemma ReplacedRedBlack(c: Path, t: Tree, node: Node)
    requires t.Branch? && RedBlack(Plug(c, t))
    ensures RedBlack(Plug(c, Branch(node, t.red, t.left, t.right)))
  {
    UnplugRedBlack(c, t);
    PlugRedBlack(c, Branch(node, t.red, t.left, t.right));
  }

  lemma ReplacedElems(c: Path, t: Tree, node: Node)
    requires t.Branch? && Tidy(Plug(c, t)) && node !in Elems(Plug(c, t))
    ensures Elems(Plug(c, Branch(node, t.red, t.left, t.right))) == Elems(Plug(c, t)) - {t.node} + {node}
  {
    PlugTidy(c, t);
    PlugTidy(c, Branch(node, t.red, t.left, t.right));
  }

  class RbTree {
    var root: Node?
    ghost var repr: set<Node>
    ghost var tree: Tree

    /** rbtree_init. */
    constructor ()
      ensures Valid() && Contents() == []
    {
      root := null;
      repr := {};
      tree := Leaf;
    }

    /** The nodes reachable from the root form a red-black tree with consistent links. */
    ghost predicate Valid()
      reads this, repr
    {
      At(Memory(), root, Top, tree) && RedBlack(tree) && repr == Elems(tree)
    }

    /** The nodes, in order. */
    ghost function Contents(): seq<Node>
      reads this
    {
      Seq(tree)
    }

    ghost function Memory(): Mem
      reads this, repr
    {
      Snapshot(repr)
    }

    /** The index of a node under its parent. */
    method NodeIndex(node: Node?, parent: Node, ghost c: Path, ghost t: Tree) returns (i: Index)
      requires At(Memory(), root, c, t) && c.Step? && parent == c.node && node == Ref(t)
      requires t.Branch? || c.other.Branch?
      ensures i == c.side
    {
      Reads(Memory(), root, c, t);
      Siblings(Memory(), root, c, t);
      i := if parent.Child(LEFT) == node then LEFT else RIGHT;
      assert parent.Child(i) == node;
    }

    method SetChild(n: Node, i: Index, x: Node?)
      requires n in Memory()
      modifies n
      ensures Memory() == old(Memory())[n := WithChild(old(Memory())[n], i, x)]
    {
      if i == LEFT { n.left := x; } else { n.right := x; }
    }

    /** rbtree_node_set_parent. */
    method SetParent(n: Node, p: Node?)
      requires n in Memory()
      modifies n
      ensures Memory() == old(Memory())[n := WithParent(old(Memory())[n], p)]
    {
      n.parent := p;
    }

    /** rbtree_node_set_color. */
    method SetRed(n: Node, red: bool)
      requires n in Memory()
      modifies n
      ensures Memory() == old(Memory())[n := old(Memory())[n].(red := red)]
    {
      n.red := red;
    }

    /** Another node, or none, takes the place of a node under its parent, or at the root. */
    method Replace(parent: Node?, node: Node?, x: Node?, ghost side: Index)
      requires parent != null ==>
        parent in Memory() && parent.Child(side) == node && parent.Child(Other(side)) != node
      modifies this`root, parent
      ensures Memory() == Linked(old(Memory()), parent, side, x)
      ensures root == if parent == null then x else old(root)
    {
      if parent == null {
        root := x;
      } else {
        SetChild(parent, if parent.Child(LEFT) == node then LEFT else RIGHT, x);
      }
    }

    method Recolour(node: Node, red: bool, ghost c: Path, ghost t: Tree)
      requires At(Memory(), root, c, t) && node == Ref(t)
      modifies repr
      ensures At(Memory(), root, c, Recoloured(t, red))
    {
      Reads(Memory(), root, c, t);
      SetRed(node, red);
      RecolourAt(old(Memory()), Memory(), root, c, t, red);
    }

    method PassInner(node: Node, rnode: Node, direction: Index)
      requires node in Memory() && rnode in Memory() && node != rnode
      requires rnode.Child(direction) != null ==> rnode.Child(direction) in Memory()
      modifies node, rnode.Child(direction)
      ensures Memory() == Passed(old(Memory()), node, old(rnode.Child(direction)), direction)
    {
      var left, right := direction, Other(direction);
      SetChild(node, right, rnode.Child(left));
      if rnode.Child(left) != null {
        SetParent(rnode.Child(left), node);
      }
    }

    method Hang(node: Node, rnode: Node, parent: Node?, i: Index)
      requires node in Memory() && rnode in Memory()
      modifies rnode
      ensures Memory() == Hung(old(Memory()), node, rnode, parent, i)
    {
      SetChild(rnode, i, node);
      SetParent(rnode, parent);
    }

    lemma Read(n: Node)
      requires n in Memory()
      ensures n in repr && Memory()[n].parent == n.parent && Memory()[n].red == n.red
      ensures Memory()[n].left == n.left && Memory()[n].right == n.right && forall i: Index :: n.Child(i) == ChildOf(Memory()[n], i)
    {}

    /** The fields of the nodes around a focus. */
    lemma Look(c: Path, t: Tree)
      requires At(Memory(), root, c, t)
      ensures t.Leaf? <==> Ref(t) == null
      ensures t.Branch? ==> Ref(t) == t.node && t.node in repr && t.node.red == t.red && t.node.parent == Up(c)
      ensures t.Branch? ==> forall i: Index :: t.node.Child(i) == Ref(Kid(t, i))
      ensures c.Top? ==> Up(c) == null && root == Ref(t)
      ensures c.Step? ==> Up(c) == c.node && c.node in repr && c.node.red == c.red && c.node.parent == Up(c.up)
      ensures c.Step? ==> c.node.Child(c.side) == Ref(t) && c.node.Child(Other(c.side)) == Ref(c.other)
      ensures c.Step? ==> (c.other.Leaf? <==> Ref(c.other) == null)
      ensures c.Step? && c.other.Branch? ==> Ref(c.other) == c.other.node && c.other.node in repr && c.other.node.red == c.other.red
    {
      Reads(Memory(), root, c, t);
    }

    lemma LookKids(c: Path, t: Tree)
      requires At(Memory(), root, c, t) && t.Branch?
      ensures t.node.left == Ref(t.left) && t.node.right == Ref(t.right)
      ensures (t.node.left == null <==> t.left == Leaf) && (t.node.right == null <==> t.right == Leaf)
    {
      Reads(Memory(), root, c, t);
    }

    /** The colour of a child, where an empty one is black. */
    method ChildIsBlack(n: Node, i: Index, ghost c: Path, ghost t: Tree) returns (black: bool)
      requires At(Memory(), root, c, t) && t.Branch? && n == t.node
      ensures black == IsBlack(Kid(t, i))
    {
      Look(c, t);
      ToChild(Memory(), root, c, t, i);
      Look(Step(c, t.node, t.red, i, Kid(t, Other(i))), Kid(t, i));
      black := n.Child(i) == null || !n.Child(i).red;
    }

    /** rbtree_rotate. */
    method Rotate(node: Node, direction: Index, ghost c: Path, ghost t: Tree)
      requires At(Memory(), root, c, t) && t.Branch? && node == t.node && Kid(t, Other(direction)).Branch?
      modifies this`root, repr
      ensures At(Memory(), root, c, Rotated(t, direction))
    {
      hide At, Rep, RepPath, Tidy, TidyPath, Elems, Around, Snapshot, Passed, Hung, Linked, Rotated, Kid, Ref, Up, CellOf,
        WithChild, WithParent;
      ghost var m := Memory();
      ghost var child, inner, side := RotateRefs(m, root, c, t, direction);
      var left, right := direction, Other(direction);
      Read(node);
      var parent, rnode := node.parent, node.Child(right);
      Read(rnode);
      if parent != null { Read(parent); }
      if inner != null { Read(inner); }
      PassInner(node, rnode, direction);
      Hang(node, rnode, parent, left);
      Replace(parent, node, rnode, side);
      SetParent(node, rnode);
      assert Memory() == RotateWrites(m, node, rnode, inner, parent, side, direction);
      RotateWritesAt(m, Memory(), old(root), root, c, t, direction, rnode, inner, side);
    }

    /** The first lines of rbtree_insert_rebalance: the node is linked at an empty place. */
    method Link(parent: Node?, index: Index, node: Node, ghost c: Path)
      requires At(Memory(), root, c, Leaf) && parent == Up(c) && (c.Step? ==> index == c.side) && node !in repr
      modifies this`root, this`repr, repr, node
      ensures repr == old(repr) + {node} && At(Memory(), root, c, Branch(node, true, Leaf, Leaf))
    {
      Reads(Memory(), root, c, Leaf);
      node.red, node.parent, node.left, node.right := true, parent, null, null;
      repr := repr + {node};
      if parent == null {
        root := node;
      } else {
        SetChild(parent, index, node);
      }
      LinkAt(old(Memory()), Memory(), old(root), root, c, node);
    }

    /** A red uncle: colours are flipped under the grandparent. */
    method Flip(grandParent: Node, parent: Node, uncle: Node, i: Index, ghost c: Path, ghost g: Tree)
      requires At(Memory(), root, c, g) && g.Branch? && g.left.Branch? && g.right.Branch?
      requires grandParent == Ref(g) && parent == Ref(Kid(g, i)) && uncle == Ref(Kid(g, Other(i)))
      modifies repr
      ensures At(Memory(), root, c, Flipped(g))
    {
      hide At;
      ghost var p, u := Kid(g, i), Kid(g, Other(i));
      Refocus(Memory(), root, c, g, Step(c, g.node, g.red, Other(i), p), u);
      Recolour(uncle, false, Step(c, g.node, g.red, Other(i), p), u);
      u := Recoloured(u, false);
      Refocus(Memory(), root, Step(c, g.node, g.red, Other(i), p), u, Step(c, g.node, g.red, i, u), p);
      Recolour(parent, false, Step(c, g.node, g.red, i, u), p);
      p := Recoloured(p, false);
      Refocus(Memory(), root, Step(c, g.node, g.red, i, u), p, c, Make(g.node, g.red, i, p, u));
      Recolour(grandParent, true, c, Make(g.node, g.red, i, p, u));
    }

    /** A black uncle: one or two rotations. */
    method Lift(node: Node, mid: Node, grandParent: Node, left: Index, ghost c: Path, ghost g: Tree)
      requires At(Memory(), root, c, g) && g.Branch? && Kid(g, left).Branch?
      requires grandParent == Ref(g) && mid == Ref(Kid(g, left))
      requires Ref(Kid(Kid(g, left), LEFT)) == node || Ref(Kid(Kid(g, left), RIGHT)) == node
      requires Ref(Kid(Kid(g, left), LEFT)) != Ref(Kid(Kid(g, left), RIGHT))
      modifies this`root, repr
      ensures At(Memory(), root, c, Lifted(g, left, node == Ref(Kid(Kid(g, left), Other(left)))))
    {
      hide At;
      var right := Other(left);
      var parent := mid;
      ghost var p, u := Kid(g, left), Kid(g, right);
      ghost var d := Step(c, g.node, g.red, left, u);
      Refocus(Memory(), root, c, g, d, p);
      Reads(Memory(), root, d, p);
      if parent.Child(right) == node {
        Rotate(parent, left, d, p);
        p := Rotated(p, left);
        parent := node;
      }
      Recolour(parent, false, d, p);
      p := Recoloured(p, false);
      Refocus(Memory(), root, d, p, c, Make(g.node, g.red, left, p, u));
      Recolour(grandParent, true, c, Make(g.node, g.red, left, p, u));
      Rotate(grandParent, right, c, Make(g.node, true, left, p, u));
    }

    /** The index of the parent under the grandparent, and the uncle. */
    method Uncle(parent: Node, grandParent: Node?, ghost c: Path, ghost t: Tree) returns (left: Index, uncle: Node?)
      requires At(Memory(), root, c, t) && c.Step? && c.up.Step? && parent == c.node && grandParent == c.up.node
      ensures left == c.up.side && uncle == Ref(c.up.other)
      ensures uncle == null <==> c.up.other.Leaf?
      ensures uncle != null ==> uncle in repr && uncle.red == c.up.other.red
      ensures At(Memory(), root, c.up.up, Grand(c, t))
    {
      ghost var p := Make(c.node, c.red, c.side, t, c.other);
      Refocus(Memory(), root, c, t, c.up, p);
      left := NodeIndex(parent, grandParent, c.up, p);
      Look(c.up, p);
      uncle := grandParent.Child(Other(left));
      Refocus(Memory(), root, c, t, c.up.up, Grand(c, t));
    }

    /** rbtree_insert_rebalance, at the empty place that c leads to. */
    method InsertRebalance(slotParent: Node?, index: Index, newNode: Node, ghost place: Path)
      requires Valid() && Plug(place, Leaf) == tree && slotParent == Up(place) && (place.Step? ==> index == place.side)
      requires newNode !in repr
      modifies this, repr, newNode
      ensures Valid() && Contents() == Before(place) + [newNode] + After(place) && repr == old(repr) + {newNode}
    {
      hide At, Balanced, Fits, Height, Plug, Seq, RedBlack, Before, After, Lifted, Flipped, Snapshot, Make, Kid, Ref, Up;
      var parent, node := slotParent, newNode;
      ghost var c, t := place, Branch(newNode, true, Leaf, Leaf);
      FocusOn(Memory(), root, tree, place, Leaf);
      NewNode(place, newNode);
      Link(parent, index, node, place);
      while true
        invariant At(Memory(), root, c, t) && t.Branch? && t.red && node == t.node && parent == Up(c)
        invariant Balanced(t) && Fits(c, Height(t))
        invariant Seq(Plug(c, t)) == Before(place) + [newNode] + After(place) && repr == old(repr) + {newNode}
        decreases c
      {
        Look(c, t);
        if parent == null {
          InsertDone(c, t);
          Recolour(node, false, c, t);
          t := Recoloured(t, false);
          break;
        }
        if !parent.red {
          InsertDone(c, t);
          break;
        }
        RedParent(c, t);
        var grandParent := parent.parent;
        GrandRefs(Memory(), root, c, t);
        var left, uncle := Uncle(parent, grandParent, c, t);
        ghost var up, g := c.up, Grand(c, t);
        if uncle != null && uncle.red {
          InsertFlipped(c, t);
          Flip(grandParent, parent, uncle, left, up.up, g);
          node := grandParent;
          c, t := up.up, Flipped(g);
          Look(c, t);
          parent := node.parent;
        } else {
          InsertLifted(c, t);
          Lift(node, parent, grandParent, left, up.up, g);
          c, t := up.up, Lifted(g, up.side, c.side != up.side);
          break;
        }
      }
      FocusBack(Memory(), root, c, t);
      InsertElems(place, newNode, Plug(c, t));
      tree := Plug(c, t);
    }

    /** A red brother is made black, and rotated above the parent. */
    method TurnBrother(parent: Node, brother: Node, left: Index, ghost c: Path, ghost t: Tree)
      requires At(Memory(), root, c, t) && c.Step? && c.other.Branch?
      requires parent == c.node && brother == c.other.node && left == c.side
      modifies this`root, repr
      ensures At(Memory(), root, Turned(c), t)
    {
      hide At, Snapshot;
      ghost var b := c.other;
      ToSibling(Memory(), root, c, t);
      Recolour(brother, false, Step(c.up, c.node, c.red, Other(left), t), b);
      b := Recoloured(b, false);
      ToParent(Memory(), root, Step(c.up, c.node, c.red, Other(left), t), b);
      ghost var p := Make(c.node, c.red, left, t, b);
      Recolour(parent, true, c.up, p);
      p := Make(c.node, true, left, t, b);
      Rotate(parent, left, c.up, p);
      Refocus(Memory(), root, c.up, Rotated(p, left), Turned(c), t);
    }

    /** The near nephew, red, takes the place of the brother. */
    method LeanBrother(brother: Node, left: Index, ghost c: Path, ghost b: Tree)
      requires At(Memory(), root, c, b) && b.Branch? && brother == b.node && !b.red && !IsBlack(Kid(b, left))
      requires IsBlack(Kid(b, Other(left)))
      modifies this`root, repr
      ensures At(Memory(), root, c, Leant(b, left))
    {
      hide At, Snapshot;
      var right := Other(left);
      ghost var k, d := Kid(b, left), Step(c, b.node, b.red, left, Kid(b, right));
      Look(c, b);
      ToChild(Memory(), root, c, b, left);
      Recolour(brother.Child(left), false, d, k);
      k := Recoloured(k, false);
      ToParent(Memory(), root, d, k);
      ghost var q := Make(b.node, b.red, left, k, Kid(b, right));
      Recolour(brother, true, c, q);
      Rotate(brother, right, c, Recoloured(q, true));
    }

    /** The brother takes the colour and the place of the parent. */
    method Mend(parent: Node, brother: Node, left: Index, ghost c: Path, ghost t: Tree)
      requires At(Memory(), root, c, t) && c.Step? && c.other.Branch? && Kid(c.other, Other(c.side)).Branch?
      requires parent == c.node && brother == c.other.node && left == c.side
      modifies this`root, repr
      ensures At(Memory(), root, c.up, Mended(c, t, c.other))
    {
      hide At, Snapshot;
      var right := Other(left);
      ghost var x, d := c.other, Step(c.up, c.node, c.red, right, t);
      Look(c, t);
      ToSibling(Memory(), root, c, t);
      Recolour(brother, parent.red, d, x);
      x := Recoloured(x, c.red);
      ToParent(Memory(), root, d, x);
      ghost var p := Make(c.node, c.red, left, t, x);
      Recolour(parent, false, c.up, p);
      p := Make(c.node, false, left, t, x);
      ToChild(Memory(), root, c.up, p, right);
      ghost var e := Step(c.up, c.node, false, right, t);
      Look(e, x);
      ToChild(Memory(), root, e, x, right);
      Recolour(brother.Child(right), false, Step(e, x.node, x.red, right, Kid(x, left)), Kid(x, right));
      ToParent(Memory(), root, Step(e, x.node, x.red, right, Kid(x, left)), Recoloured(Kid(x, right), false));
      x := Make(x.node, x.red, left, Kid(x, left), Recoloured(Kid(x, right), false));
      ToParent(Memory(), root, e, x);
      Rotate(parent, left, c.up, Make(c.node, false, left, t, x));
    }

    /** The brother, black without red children, turns red. */
    method Fade(brother: Node, ghost c: Path, ghost t: Tree)
      requires At(Memory(), root, c, t) && c.Step? && c.other.Branch? && brother == c.other.node
      modifies repr
      ensures At(Memory(), root, c.up, Faded(c, t))
    {
      hide At, Snapshot;
      ghost var d := Step(c.up, c.node, c.red, Other(c.side), t);
      ToSibling(Memory(), root, c, t);
      Recolour(brother, true, d, c.other);
      ToParent(Memory(), root, d, Recoloured(c.other, true));
    }

    /** The brother, black with a red child, ends the rebalancing. */
    method Repair(parent: Node, black: Node, left: Index, ghost c: Path, ghost t: Tree)
      requires At(Memory(), root, c, t) && c.Step? && c.other.Branch? && !c.other.red
      requires !IsBlack(c.other.left) || !IsBlack(c.other.right)
      requires parent == c.node && black == c.other.node && left == c.side
      modifies this`root, repr
      ensures At(Memory(), root, c.up, Mended(c, t, Leant(c.other, left)))
    {
      hide At, Snapshot, Mended, Ref, Up;
      var brother := black;
      ghost var x, e, d := c.other, c, Step(c.up, c.node, c.red, Other(left), t);
      ToSibling(Memory(), root, c, t);
      var farBlack := ChildIsBlack(brother, Other(left), d, x);
      if farBlack {
        LeanBrother(brother, left, d, x);
        x, e := Leant(x, left), Step(c.up, c.node, c.red, left, Leant(x, left));
        ToSibling(Memory(), root, d, x);
        Look(e, t);
        brother := parent.Child(Other(left));
      }
      Mend(parent, brother, left, e, t);
      MendedSame(c, e, t);
    }

    method NephewsBlack(brother: Node, ghost c: Path, ghost t: Tree) returns (black: bool)
      requires At(Memory(), root, c, t) && c.Step? && c.other.Branch? && brother == c.other.node
      ensures black <==> IsBlack(c.other.left) && IsBlack(c.other.right)
    {
      hide At, Snapshot;
      ToSibling(Memory(), root, c, t);
      var l := ChildIsBlack(brother, LEFT, Step(c.up, c.node, c.red, Other(c.side), t), c.other);
      var r := ChildIsBlack(brother, RIGHT, Step(c.up, c.node, c.red, Other(c.side), t), c.other);
      black := l && r;
    }

    /** rbtree_remove from its label update_color on, when a black node is missing. */
    method RemoveRebalance(start: Node?, above: Node?, ghost place: Path, ghost below: Tree) returns (ghost whole: Tree)
      requires At(Memory(), root, place, below) && Short(place, below) && start == Ref(below) && above == Up(place)
      modifies this`root, repr
      ensures At(Memory(), root, Top, whole) && RedBlack(whole) && Seq(whole) == Seq(Plug(place, below))
    {
      hide At, Short, Balanced, RedBlack, Fits, Height, Plug, Seq, Snapshot, Turned, Faded, Leant, Mended, Ref, Up;
      var child, parent := start, above;
      ghost var c, t := place, below;
      while true
        invariant At(Memory(), root, c, t) && Short(c, t) && child == Ref(t) && parent == Up(c)
        invariant Seq(Plug(c, t)) == Seq(Plug(place, below))
        decreases Work(c, t)
      {
        Look(c, t);
        ShortDone(c, t);
        if child != null && child.red {
          Recolour(child, false, c, t);
          t := Blackened(t);
          break;
        }
        if parent == null {
          break;
        }
        Brother(c, t);
        var left := NodeIndex(child, parent, c, t);
        var brother := parent.Child(Other(left));
        if brother.red {
          TurnedShort(c, t);
          TurnBrother(parent, brother, left, c, t);
          c := Turned(c);
          Look(c, t);
          Brother(c, t);
          brother := parent.Child(Other(left));
        }
        var quiet := NephewsBlack(brother, c, t);
        if quiet {
          FadedShort(c, t);
          Fade(brother, c, t);
          c, t := c.up, Faded(c, t);
          child := parent;
          Look(c, t);
          parent := child.parent;
        } else {
          MendedRedBlack(c, t);
          Repair(parent, brother, left, c, t);
          c, t := c.up, Mended(c, t, Leant(c.other, left));
          break;
        }
      }
      FocusBack(Memory(), root, c, t);
      whole := Plug(c, t);
    }

    ghost method Drop(node: Node)
      modifies this`repr
      ensures repr == old(repr) - {node} && Memory() == old(Memory()) - {node}
    {
      repr := repr - {node};
    }

    /** rbtree_remove, for a node with an empty child: the other one takes its place. */
    method Splice(node: Node, child: Node?, ghost c: Path, ghost t: Tree, ghost u: Tree) returns (parent: Node?, red: bool)
      requires At(Memory(), root, c, t) && t.Branch? && node == t.node && child == Ref(u)
      requires t == Branch(t.node, t.red, Leaf, u) || t == Branch(t.node, t.red, u, Leaf)
      modifies this`root, this`repr, repr
      ensures repr == old(repr) - {node} && At(Memory(), root, c, u) && parent == Up(c) && red == t.red
    {
      hide At, Rep, RepPath, Tidy, TidyPath, Elems, Around, Snapshot, Linked, Plug;
      ghost var m := Memory();
      ghost var side := SpliceRefs(m, root, c, t, u);
      Read(node);
      red := node.red;
      parent := node.parent;
      if child != null {
        Read(child);
        SetParent(child, parent);
      }
      if parent != null { Read(parent); }
      Replace(parent, node, child, side);
      SpliceWrites(m, Memory(), old(root), root, c, t, u, side);
      Drop(node);
    }

    method TakeLeft(node: Node, s: Node)
      requires node in Memory() && s in Memory() && node != s
      modifies s
      ensures Memory() == old(Memory())[s := old(Memory()[s].(red := Memory()[node].red, parent := Memory()[node].parent, left := node.left))]
    {
      s.red, s.parent := node.red, node.parent;
      s.left := node.left;
    }

    /** The successor takes the place, the colour and the left child of the node. */
    method Adopt(node: Node, s: Node, ghost side: Index)
      requires node in Memory() && s in Memory() && node != s && node.left != null && node.left in Memory()
      requires node.left != node && node.left != s && (node.parent != null ==> node.parent in Memory())
      requires node.parent != node && node.parent != s && (node.parent == null || node.parent != node.left)
      requires node.parent != null ==> node.parent.Child(side) == node && node.parent.Child(Other(side)) != node
      modifies this`root, node.parent, s, node.left
      ensures Memory() == Adopted(old(Memory()), node, s, old(node.parent), side, old(node.left))
      ensures root == if old(node.parent) == null then s else old(root)
    {
      hide Snapshot, Linked;
      Read(node);
      Replace(node.parent, node, s, side);
      TakeLeft(node, s);
      SetParent(node.left, s);
    }

    /** The successor takes the right child of the node, and leaves its own to its parent. */
    method Yield(node: Node, s: Node, parent: Node, child: Node?)
      requires s in Memory() && node.right != null && node.right in Memory() && parent in Memory()
      requires child != null ==> child in Memory()
      requires node.right != s && node != s
      modifies s, node.right, parent, child
      ensures Memory() == Yielded(old(Memory()), s, old(node.right), parent, child)
    {
      var right := node.right;
      SetChild(s, RIGHT, right);
      SetParent(right, s);
      SetChild(parent, LEFT, child);
      if child != null {
        SetParent(child, parent);
      }
    }

    /** The successor of a node with two children. */
    method Successor(node: Node, ghost c: Path, ghost t: Tree) returns (s: Node, ghost d: Path, ghost u: Tree)
      requires At(Memory(), root, c, t) && t.Branch? && node == t.node && t.right.Branch?
      ensures u.Branch? && s == u.node && u.left.Leaf? && Plug(d, u) == t.right && AllLeft(d)
    {
      hide At, Snapshot, Ref;
      ghost var e := Step(c, t.node, t.red, RIGHT, t.left);
      ToChild(Memory(), root, c, t, RIGHT);
      Look(c, t);
      d, u := Top, t.right;
      Look(e, u);
      s := node.Child(RIGHT);
      while s.left != null
        invariant At(Memory(), root, e, u) && u.Branch? && s == u.node && Plug(d, u) == t.right && AllLeft(d)
        decreases u
      {
        Look(e, u);
        ToChild(Memory(), root, e, u, LEFT);
        s := s.Child(LEFT);
        e := Step(e, u.node, u.red, LEFT, u.right);
        d, u := Step(d, u.node, u.red, LEFT, u.right), u.left;
        Look(e, u);
      }
      Look(e, u);
      ToChild(Memory(), root, e, u, LEFT);
      Look(Step(e, u.node, u.red, LEFT, u.right), u.left);
      assert s.Child(LEFT) == s.left;
    }

    /** rbtree_remove, for a node with two children: its successor takes its place. */
    method Exchange(node: Node, ghost c: Path, ghost t: Tree) returns (child: Node?, parent: Node?, red: bool, ghost w: Swap)
      requires At(Memory(), root, c, t) && t.Branch? && node == t.node && t.left.Branch? && t.right.Branch?
      modifies this`root, this`repr, repr
      ensures w.c == c && w.Whole() == t && AllLeft(w.d) && repr == old(repr) - {node}
      ensures At(Memory(), root, w.After(), w.x) && child == Ref(w.x) && parent == Up(w.After()) && red == w.sred
    {
      hide At, Snapshot, Ref, Up, Adopted, Yielded, Plug, AllLeft, Graft;
      ghost var m := Memory();
      var s, d, u := Successor(node, c, t);
      w := Swap(c, t.node, t.red, t.left, d, s, u.red, u.right);
      ghost var side := ExchangeRefs(m, root, w);
      ParentRefs(m, root, w);
      Read(node);
      Read(s);
      Read(w.left.node);
      red, child := s.red, s.right;
      if node.parent != null { Read(node.parent); }
      parent := s.parent;
      ghost var r := node.right;
      Adopt(node, s, side);
      if node == parent {
        parent := s;
        ExchangedTop(m, Memory(), old(root), root, w, side);
      } else {
        Read(parent);
        Read(r);
        if child != null { Read(child); }
        Yield(node, s, parent, child);
        ExchangedStep(m, Memory(), old(root), root, w, side, r);
      }
      Drop(node);
    }

    /** rbtree_remove. */
    method Remove(node: Node)
      requires Valid() && node in repr
      modifies this, repr
      ensures Valid() && Contents() == Without(old(Contents()), node) && repr == old(repr) - {node}
    {
      hide At, Snapshot, Plug, Seq, Elems, RedBlack, Short, Without, Ref, Up, AllLeft;
      ghost var c, t := Find(tree, node);
      ghost var e, u;
      var child, parent, red;
      FocusOn(Memory(), root, tree, c, t);
      LookKids(c, t);
      if node.left == null {
        child := node.right;
        e, u := c, t.right;
        SpliceContents(Memory(), root, c, t, u, tree);
        parent, red := Splice(node, child, c, t, u);
      } else if node.right == null {
        child := node.left;
        e, u := c, t.left;
        SpliceContents(Memory(), root, c, t, u, tree);
        parent, red := Splice(node, child, c, t, u);
      } else {
        ghost var w;
        ghost var m, r := Memory(), root;
        child, parent, red, w := Exchange(node, c, t);
        SwapContents(m, r, w, tree);
        e, u := w.After(), w.x;
      }
      if red {
        FocusBack(Memory(), root, e, u);
        tree := Plug(e, u);
      } else {
        ghost var whole := RemoveRebalance(child, parent, e, u);
        SameElems(whole, Plug(e, u));
        tree := whole;
      }
    }

    /** rbtree_d2i. */
    function IndexOf(diff: int): Index { if diff <= 0 then LEFT else RIGHT }

    /** One step of the search for key k. */
    lemma Descend(k: int, c: Path, t: Tree)
      requires At(Memory(), root, c, t) && t.Branch? && Sorted(Seq(Plug(c, t))) && Bounds(c, k) && t.node.key != k
      ensures var i := IndexOf(k - t.node.key); var d := Step(c, t.node, t.red, i, Kid(t, Other(i)));
              At(Memory(), root, d, Kid(t, i)) && Bounds(d, k) && Plug(d, Kid(t, i)) == Plug(c, t)
    {
      ToChild(Memory(), root, c, t, IndexOf(k - t.node.key));
      Narrow(c, t, k);
    }

    /** The search of rbtree_lookup_slot, which the other lookups and rbtree_insert share: a node with the given key,
        or the empty place where such a node belongs. */
    method Search(key: int) returns (cur: Node?, prev: Node?, index: Index, ghost c: Path, ghost t: Tree)
      requires Valid() && Sorted(Contents())
      ensures Plug(c, t) == tree && cur == Ref(t) && (cur == null <==> t == Leaf)
      ensures cur != null ==> cur in Contents() && cur.key == key
      ensures cur == null ==> prev == Up(c) && (c.Step? ==> index == c.side) && Bounds(c, key)
    {
      hide At, Snapshot, Ref, Up, Sorted, RedBlack, Seq, Elems, Before, After;
      cur, prev, index := root, null, LEFT;
      c, t := Top, tree;
      Look(c, t);
      StartBounds(key);
      while cur != null
        invariant At(Memory(), root, c, t) && cur == Ref(t) && Plug(c, t) == tree && Bounds(c, key)
        invariant t.Leaf? <==> cur == null
        invariant prev == Up(c) && (c.Step? ==> index == c.side)
        decreases t
      {
        Look(c, t);
        var diff := key - cur.key;
        if diff == 0 {
          Found(c, t);
          break;
        }
        Descend(key, c, t);
        prev, index := cur, IndexOf(diff);
        cur := cur.Child(index);
        c, t := Step(c, t.node, t.red, index, Kid(t, Other(index))), Kid(t, index);
        Look(c, t);
      }
    }

    /** rbtree_lookup. */
    method Lookup(key: int) returns (cur: Node?)
      requires Valid() && Sorted(Contents())
      ensures cur != null ==> cur in Contents() && cur.key == key
      ensures cur == null ==> forall n | n in Contents() :: n.key != key
    {
      ghost var c, t;
      var prev, index;
      cur, prev, index, c, t := Search(key);
      if cur == null { NotFound(c, key); }
    }

    /** rbtree_lookup_nearest. */
    method LookupNearest(key: int, direction: Index) returns (cur: Node?)
      requires Valid() && Sorted(Contents())
      ensures if exists n :: n in Contents() && n.key == key then cur in Contents() && cur.key == key
              else Nearest(Contents(), key, direction, cur)
    {
      hide At, Snapshot, Sorted, Seq, Elems, Plug, Before, After, Nearest, RedBlack;
      ghost var c, t;
      var prev, index;
      cur, prev, index, c, t := Search(key);
      if cur == null {
        NotFound(c, key);
        BeyondNearest(c, key, direction);
        cur := NearestNode(prev, index, direction, c);
      }
    }

    /** rbtree_nearest. */
    method NearestNode(parent: Node?, index: Index, direction: Index, ghost c: Path) returns (r: Node?)
      requires Valid() && Plug(c, Leaf) == tree && parent == Up(c) && (c.Step? ==> index == c.side)
      ensures r == Beyond(c, direction)
    {
      FocusOn(Memory(), root, tree, c, Leaf);
      if parent == null {
        return null;
      }
      BeyondUp(c, direction);
      if index != direction {
        return parent;
      }
      ToParent(Memory(), root, c, Leaf);
      r := WalkFrom(parent, direction, c.up, Make(c.node, c.red, c.side, Leaf, c.other));
    }

    /** rbtree_insert: the node must not compare equal to one of the tree. */
    method Insert(node: Node)
      requires Valid() && Sorted(Contents()) && node !in repr
      requires forall n | n in Contents() :: n.key != node.key
      modifies this, repr, node
      ensures Valid() && repr == old(repr) + {node}
      ensures Contents() == Inserted(old(Contents()), node) && Sorted(Contents())
    {
      hide At, Snapshot, Ref, Up, Sorted, RedBlack, Seq, Elems, Before, After, Inserted;
      ghost var c, t;
      var cur, prev, index;
      cur, prev, index, c, t := Search(node.key);
      InsertedHere(c, node);
      InsertRebalance(prev, index, node, c);
    }

    lemma StartBounds(k: int)
      ensures Bounds(Top, k) && Up(Top) == null
    {}

    /** rbtree_walk. */
    method Walk(node: Node, direction: Index) returns (next: Node?)
      requires Valid() && node in repr
      ensures NextTo(Contents(), node, direction, next)
    {
      hide At, Snapshot, Ref, Up, RedBlack, Seq, Elems, Before, After, Beyond, End, NextTo;
      ghost var c, t := Find(tree, node);
      FocusOn(Memory(), root, tree, c, t);
      NextAt(c, t, direction);
      next := WalkFrom(node, direction, c, t);
    }

    /** The body of rbtree_walk. */
    method WalkFrom(node: Node, direction: Index, ghost c: Path, ghost t: Tree) returns (next: Node?)
      requires At(Memory(), root, c, t) && t.Branch? && node == t.node
      ensures next == if Kid(t, direction).Branch? then End(Kid(t, direction), Other(direction)) else Beyond(c, direction)
    {
      hide At, Snapshot, Ref, Up, RedBlack, Seq, Elems, Before, After, Beyond, End, NextTo;
      var left, right := direction, Other(direction);
      Look(c, t);
      ToChild(Memory(), root, c, t, left);
      ghost var d := Step(c, t.node, t.red, left, Kid(t, right));
      Look(d, Kid(t, left));
      if node.Child(left) != null {
        next := Descent(node.Child(left), right, d, Kid(t, left));
      } else {
        next := Ascent(node, direction, c, t);
      }
    }

    /** rbtree_firstlast. */
    method FirstLast(direction: Index) returns (prev: Node?)
      requires Valid()
      ensures prev == End(tree, direction)
    {
      Look(Top, tree);
      if root == null {
        prev := null;
      } else {
        prev := Descent(root, direction, Top, tree);
      }
    }

    /** The node of a subtree that comes first from side i. */
    method Descent(start: Node, i: Index, ghost c0: Path, ghost t0: Tree) returns (n: Node)
      requires At(Memory(), root, c0, t0) && start == Ref(t0)
      ensures n == End(t0, i)
    {
      hide At, Snapshot, Ref, Up, Seq, Elems, End;
      n := start;
      ghost var c, t := c0, t0;
      Look(c, t);
      LookEnd(c, t, i);
      while n.Child(i) != null
        invariant At(Memory(), root, c, t) && t.Branch? && n == t.node && End(t, i) == End(t0, i)
        invariant n.Child(i) == Ref(Kid(t, i)) && (n.Child(i) == null <==> Kid(t, i).Leaf?)
        invariant Kid(t, i).Leaf? ==> End(t, i) == n
        decreases t
      {
        LookEnd(c, t, i);
        ToChild(Memory(), root, c, t, i);
        n := n.Child(i);
        c, t := Step(c, t.node, t.red, i, Kid(t, Other(i))), Kid(t, i);
        LookEnd(c, t, i);
      }
    }

    lemma LookEnd(c: Path, t: Tree, i: Index)
      requires At(Memory(), root, c, t) && t.Branch?
      ensures t.node.Child(i) == Ref(Kid(t, i)) && (Ref(Kid(t, i)) == null <==> Kid(t, i).Leaf?)
      ensures Kid(t, i).Branch? ==> Ref(Kid(t, i)) == Kid(t, i).node
      ensures End(t, i) == if Kid(t, i).Leaf? then t.node else End(Kid(t, i), i)
    {
      EndDown(t, i);
      Look(c, t);
    }

    /** The closest ancestor beyond a node. */
    method Ascent(start: Node, direction: Index, ghost c0: Path, ghost t0: Tree) returns (r: Node?)
      requires At(Memory(), root, c0, t0) && start == Ref(t0)
      ensures r == Beyond(c0, direction)
    {
      hide At, Snapshot, Ref, Up, Beyond, Before, After;
      var node := start;
      ghost var c, t := c0, t0;
      Look(c, t);
      while true
        invariant At(Memory(), root, c, t) && t.Branch? && node == Ref(t) && node == t.node && node.parent == Up(c)
        invariant Beyond(c, direction) == Beyond(c0, direction)
        decreases c
      {
        Look(c, t);
        var parent := node.parent;
        if parent == null {
          BeyondTop(direction);
          return null;
        }
        BeyondUp(c, direction);
        var index := NodeIndex(node, parent, c, t);
        ToParent(Memory(), root, c, t);
        node := parent;
        c, t := c.up, Make(c.node, c.red, c.side, t, c.other);
        Look(c, t);
        if index == Other(direction) {
          return node;
        }
      }
    }

    lemma BeyondTop(dir: Index)
      ensures Beyond(Top, dir) == null
    {}

    /** rbtree_node_find_deepest. */
    method FindDeepest(start: Node, ghost c0: Path, ghost t0: Tree) returns (parent: Node, ghost c: Path, ghost t: Tree)
      requires At(Memory(), root, c0, t0) && start == Ref(t0) && Foremost(c0)
      ensures At(Memory(), root, c, t) && Foremost(c) && IsSingle(t, parent) && Plug(c, t) == Plug(c0, t0)
    {
      hide At, Snapshot, Ref, Up, Plug;
      c, t := c0, t0;
      parent := start;
      Look(c, t);
      while true
        invariant At(Memory(), root, c, t) && t.Branch? && parent == t.node && Foremost(c) && Plug(c, t) == Plug(c0, t0)
        decreases t
      {
        LookKids(c, t);
        PlugDown(c, t, LEFT);
        PlugDown(c, t, RIGHT);
        var node := parent.left;
        ghost var i := LEFT;
        if node == null {
          node := parent.right;
          i := RIGHT;
          if node == null {
            return;
          }
        }
        ToChild(Memory(), root, c, t, i);
        c, t := Step(c, t.node, t.red, i, Kid(t, Other(i))), Kid(t, i);
        Look(c, t);
        parent := node;
      }
    }

    lemma PlugDown(c: Path, t: Tree, i: Index)
      requires t.Branch?
      ensures Plug(Step(c, t.node, t.red, i, Kid(t, Other(i))), Kid(t, i)) == Plug(c, t)
    {}

    method Prune(parent: Node, index: Index, ghost c: Path, ghost t: Tree)
      requires At(Memory(), root, c, t) && t.Branch? && c.Step? && parent == c.node && index == c.side
      modifies repr
      ensures At(Memory(), root, c, Leaf)
    {
      hide At, Snapshot;
      UnlinkAt(Memory(), root, c, t);
      Read(parent);
      SetChild(parent, index, null);
    }

    /** rbtree_postwalk_unlink, of the first node in postorder. */
    method PostwalkUnlink(node: Node?, ghost c: Path, ghost t: Tree)
      returns (next: Node?, ghost c': Path, ghost t': Tree)
      requires node != null ==> At(Memory(), root, c, t) && IsSingle(t, node) && Foremost(c)
      modifies repr
      ensures node == null || c.Top? ==> next == null
      ensures node != null && c.Step? ==>
        next != null && At(Memory(), root, c', t') && IsSingle(t', next) && Foremost(c') && Post(Plug(c', t')) == Rest(c)
    {
      hide At, Snapshot, Ref, Up, Plug, Post, Rest, Linked;
      if node == null {
        return null, c, t;
      }
      Look(c, t);
      var parent := node.parent;
      if parent == null {
        return null, c, t;
      }
      var index := NodeIndex(node, parent, c, t);
      PrunedPost(c, t);
      Prune(parent, index, c, t);
      c', t' := c.up, Make(c.node, c.red, c.side, Leaf, c.other);
      ToParent(Memory(), root, c, Leaf);
      PlugOnce(c, Leaf);
      LookKids(c', t');
      if parent.right == null {
        return parent, c', t';
      }
      ToChild(Memory(), root, c', t', RIGHT);
      PlugDown(c', t', RIGHT);
      next, c', t' := FindDeepest(parent.right, Step(c', t'.node, t'.red, RIGHT, t'.left), t'.right);
    }

    lemma PlugOnce(c: Path, t: Tree)
      requires c.Step?
      ensures Plug(c.up, Make(c.node, c.red, c.side, t, c.other)) == Plug(c, t)
    {}

    /** rbtree_for_each_remove: visited are the nodes given to the body of the loop, in order. */
    method ForEachRemove() returns (visited: seq<Node>)
      requires Valid()
      modifies repr
      ensures visited == Post(tree)
    {
      hide At, Snapshot, Ref, Up, Plug, Post, Rest, RedBlack, Seq, Elems;
      visited := [];
      Look(Top, tree);
      if root == null {
        EmptyPost();
        return;
      }
      var node: Node?, tmp;
      ghost var c, t, rest;
      TopPlug(tree);
      node, c, t := FindDeepest(root, Top, tree);
      ForemostPost(c, t);
      rest := Rest(c);
      tmp, c, t := PostwalkUnlink(node, c, t);
      while node != null
        invariant visited + (if node == null then [] else [node] + rest) == Post(tree)
        invariant node == null ==> tmp == null
        invariant tmp == null ==> rest == []
        invariant tmp != null ==>
          At(Memory(), root, c, t) && IsSingle(t, tmp) && Foremost(c) && Post(Plug(c, t)) == rest
        decreases if node == null then 0 else 1 + |rest|
      {
        visited := visited + [node];
        node := tmp;
        if tmp != null { ForemostPost(c, t); }
        rest := if tmp == null then [] else Rest(c);
        tmp, c, t := PostwalkUnlink(node, c, t);
      }
    }

    lemma EmptyPost()
      ensures Post(Leaf) == []
    {}

    lemma TopPlug(t: Tree)
      ensures Plug(Top, t) == t && Foremost(Top)
    {}

    method CopyFields(node: Node, prev: Node)
      requires prev in Memory() && node in Memory() && prev != node
      modifies node
      ensures Memory() == old(Memory())[node := old(Memory())[prev]]
      ensures node.left == prev.left && node.right == prev.right
    {
      node.red, node.parent, node.left, node.right := prev.red, prev.parent, prev.left, prev.right;
    }

    method Copy(node: Node, prev: Node)
      requires prev in Memory() && node in Memory() && prev != node
      requires prev.left != prev && prev.right != prev && prev.left != node && prev.right != node
      requires (prev.left != null ==> prev.left in Memory()) && (prev.right != null ==> prev.right in Memory())
      requires prev.left == null || prev.left != prev.right
      modifies node, prev.left, prev.right
      ensures Memory() == Copied(old(Memory()), node, prev, old(prev.left), old(prev.right))
    {
      hide Snapshot;
      Read(prev);
      CopyFields(node, prev);
      if node.left != null {
        SetParent(node.left, node);
      }
      if node.right != null {
        SetParent(node.right, node);
      }
    }

    ghost method Admit(node: Node)
      modifies this`repr
      ensures repr == old(repr) + {node} && Memory().Keys == old(Memory()).Keys + {node}
      ensures forall n | n in old(Memory()) :: Memory()[n] == old(Memory())[n]
    {
      repr := repr + {node};
    }

    /** The slot gets the new node. */
    method TakeSlot(parent: Node?, index: Index, node: Node, ghost c: Path, ghost t: Tree) returns (prev: Node)
      requires t.Branch? && ReplaceReady(Memory(), c, t, node) && parent == Up(c)
      requires (parent != null ==> parent in Memory()) && (c.Top? <==> parent == null)
      requires if parent == null then root == t.node else parent.Child(index) == t.node
      modifies this`root, parent
      ensures prev == t.node && prev in Memory() && node in Memory() && prev != node
      ensures Memory() == Linked(old(Memory()), parent, index, node) && root == if parent == null then node else old(root)
      ensures prev.left == Ref(t.left) && prev.right == Ref(t.right)
      ensures prev.left != prev && prev.right != prev && prev.left != node && prev.right != node
      ensures (prev.left != null ==> prev.left in Memory()) && (prev.right != null ==> prev.right in Memory())
      ensures prev.left == null || prev.left != prev.right
    {
      hide Snapshot, Ref, Up, Linked, ReplaceReady;
      ghost var m0 := Memory();
      ReplaceFacts(m0, c, t, node);
      Read(t.node);
      LinkedIs(m0, parent, index, node);
      if parent == null {
        prev := root;
        root := node;
      } else {
        prev := parent.Child(index);
        Read(parent);
        SetChild(parent, index, node);
      }
      Read(prev);
    }

    /** rbtree_replace_slot: node takes the place of the node prev of the slot. */
    method ReplaceSlot(parent: Node?, index: Index, node: Node, ghost c: Path, ghost t: Tree) returns (prev: Node)
      requires Valid() && Plug(c, t) == tree && t.Branch? && parent == Up(c) && (c.Step? ==> index == c.side) && node !in repr
      modifies this, repr, node
      ensures Valid() && prev == t.node && repr == old(repr) - {prev} + {node}
      ensures old(Contents()) == (Before(c) + Seq(t.left)) + [prev] + (Seq(t.right) + After(c))
      ensures Contents() == (Before(c) + Seq(t.left)) + [node] + (Seq(t.right) + After(c))
    {
      hide At, Snapshot, Ref, Up, Plug, RedBlack, Seq, Elems, Before, After, Linked, Copied, ReplaceReady, Tidy;
      ghost var m := Memory();
      ReplaceStart(c, t, node);
      Look(c, t);
      Admit(node);
      ghost var m0 := Memory();
      ReplaceRefs(m, m0, root, c, t, node);
      ReplaceFacts(m0, c, t, node);
      prev := TakeSlot(parent, index, node, c, t);
      if prev.left != null { Read(prev.left); }
      if prev.right != null { Read(prev.right); }
      Copy(node, prev);
      ReplaceWritesAt(m, m0, old(root), root, c, t, node, index);
      Drop(prev);
      FocusBack(Memory(), root, c, Branch(node, t.red, t.left, t.right));
      tree := Plug(c, Branch(node, t.red, t.left, t.right));
    }

    lemma LinkedIs(m: Mem, parent: Node?, i: Index, x: Node?)
      requires parent != null ==> parent in m
      ensures Linked(m, parent, i, x) == if parent == null then m else m[parent := WithChild(m[parent], i, x)]
    {}

    lemma ReplaceStart(c: Path, t: Tree, node: Node)
      requires Valid() && Plug(c, t) == tree && t.Branch? && node !in repr
      ensures At(Memory(), root, c, t) && node !in Memory() && Ref(t) == t.node && (Up(c) == null <==> c.Top?)
      ensures Contents() == (Before(c) + Seq(t.left)) + [t.node] + (Seq(t.right) + After(c))
      ensures var w := Plug(c, Branch(node, t.red, t.left, t.right));
              && RedBlack(w) && Elems(w) == repr - {t.node} + {node}
              && Seq(w) == (Before(c) + Seq(t.left)) + [node] + (Seq(t.right) + After(c))
    {
      FocusOn(Memory(), root, tree, c, t);
      PlugSplit(c, t);
      PlugSplit(c, Branch(node, t.red, t.left, t.right));
      ReplacedRedBlack(c, t, node);
      ReplacedElems(c, t, node);
    }

    lemma ReplaceFacts(m: Mem, c: Path, t: Tree, node: Node)
      requires t.Branch? && ReplaceReady(m, c, t, node)
      ensures t.node in m && node in m && node != t.node && m[t.node].left == Ref(t.left) && m[t.node].right == Ref(t.right)
      ensures Ref(t.left) != t.node && Ref(t.right) != t.node && Ref(t.left) != node && Ref(t.right) != node
      ensures (Ref(t.left) != null ==> Ref(t.left) in m) && (Ref(t.right) != null ==> Ref(t.right) in m)
      ensures Ref(t.left) == null || Ref(t.left) != Ref(t.right)
      ensures c.Step? ==> c.node in m && c.node != t.node
    {}

    /** No node of the tree looks like one that is in no tree. */
    lemma InTree(node: Node)
      requires Valid() && node in repr
      ensures !node.Unlinked()
    {
      var c, t := Find(tree, node);
      FocusOn(Memory(), root, tree, c, t);
      Look(c, t);
      assert c.Step? ==> c.node in Around(c);
    }
  }
}
