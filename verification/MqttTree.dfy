/**
 MQTTTree.c: the tree of nodes with parent pointers, rotated and recoloured in place.
 */
module MqttTree {
  import opened TreeShapes
  import opened TreeRules
  import opened TreeContents
  import opened TreeAdd
  import opened TreeRemove

  // ----- what the fields of each node are when the heap holds a shape

  ghost function RootOf(t: Shape): Node? {
    if t.Leaf? then null else t.node
  }

  ghost function CtxParent(c: Ctx): Node? {
    if c.Top? then null else c.node
  }

  ghost function MkRecord(d: Dir, parent: Node?, a: Node?, b: Node?, red: bool, cell: Cell): Record {
    if d.Left? then Record(parent, a, b, red, cell) else Record(parent, b, a, red, cell)
  }

  /** The fields of node n of t, when `parent` is above t. */
  ghost function RecordIn(t: Shape, parent: Node?, n: Node): Record
    requires n in Nodes(t)
  {
    if n == t.node then Record(parent, RootOf(t.left), RootOf(t.right), t.red, t.cell)
    else if n in Nodes(t.left) then RecordIn(t.left, t.node, n)
    else RecordIn(t.right, t.node, n)
  }

  /** The same for node n of a context whose focus has root p. */
  ghost function RecordAround(c: Ctx, p: Node?, n: Node): Record
    requires n in CtxNodes(c)
  {
    if n == c.node then MkRecord(c.dir, CtxParent(c.up), p, RootOf(c.sib), c.red, c.cell)
    else if n in Nodes(c.sib) then RecordIn(c.sib, c.node, n)
    else RecordAround(c.up, c.node, n)
  }

  /** No node occurs twice. */
  ghost predicate Apart(t: Shape) {
    t.Bin? ==>
      && t.node !in Nodes(t.left) && t.node !in Nodes(t.right) && Nodes(t.left) !! Nodes(t.right)
      && Apart(t.left) && Apart(t.right)
  }

  ghost predicate ApartCtx(c: Ctx) {
    c.Hole? ==>
      && c.node !in Nodes(c.sib) && c.node !in CtxNodes(c.up) && Nodes(c.sib) !! CtxNodes(c.up)
      && Apart(c.sib) && ApartCtx(c.up)
  }

  ghost predicate ApartZip(c: Ctx, t: Shape) {
    ApartCtx(c) && Apart(t) && CtxNodes(c) !! Nodes(t)
  }

  lemma {:induction false} ApartPlug(c: Ctx, t: Shape)
    ensures Apart(Plug(c, t)) <==> ApartZip(c, t)
    ensures Nodes(Plug(c, t)) == CtxNodes(c) + Nodes(t)
  {
    PlugNodes(c, t);
    if c.Hole? {
      ApartPlug(c.up, Mk(c.dir, c.node, c.red, c.cell, t, c.sib));
    }
  }

  /** A node's record in the whole tree, found from the focus. */
  lemma {:induction false} PlugRecord(c: Ctx, t: Shape, n: Node)
    requires ApartZip(c, t) && n in Nodes(Plug(c, t))
    ensures n in CtxNodes(c) + Nodes(t)
    ensures RecordIn(Plug(c, t), null, n) ==
            if n in Nodes(t) then RecordIn(t, CtxParent(c), n) else RecordAround(c, RootOf(t), n)
  {
    PlugNodes(c, t);
    if c.Hole? {
      PlugRecord(c.up, Mk(c.dir, c.node, c.red, c.cell, t, c.sib), n);
    }
  }

  lemma {:induction false} PlugRoot(c: Ctx, t: Shape, u: Shape)
    ensures c.Hole? ==> RootOf(Plug(c, t)) == RootOf(Plug(c, u))
  {
    if c.Hole? {
      PlugRoot(c.up, Mk(c.dir, c.node, c.red, c.cell, t, c.sib), Mk(c.dir, c.node, c.red, c.cell, u, c.sib));
    }
  }

  lemma ApartBySides(t: Shape, d: Dir)
    requires t.Bin?
    ensures var a, b := Side(t, d), Side(t, d.Opp());
            && Nodes(t) == {t.node} + Nodes(a) + Nodes(b)
            && (Apart(t) <==> t.node !in Nodes(a) && t.node !in Nodes(b) && Nodes(a) !! Nodes(b) && Apart(a) && Apart(b))
  {
  }

  lemma RecordBySides(t: Shape, p: Node?, d: Dir, n: Node)
    requires t.Bin? && Apart(t) && n in Nodes(t)
    ensures var a, b := Side(t, d), Side(t, d.Opp());
            RecordIn(t, p, n) ==
            if n == t.node then MkRecord(d, p, RootOf(a), RootOf(b), t.red, t.cell)
            else if n in Nodes(a) then RecordIn(a, t.node, n)
            else RecordIn(b, t.node, n)
  {
  }

  lemma Reparented(t: Shape, p: Node?, q: Node?, n: Node)
    requires n in Nodes(t)
    ensures RecordIn(t, q, n) == if n == t.node then RecordIn(t, p, n).(parent := q) else RecordIn(t, p, n)
  {
  }

  ghost function Turn(d: Dir, t: Shape): Shape
    requires t.Bin? && Side(t, d.Opp()).Bin?
  {
    var o := Side(t, d.Opp());
    Mk(d, o.node, o.red, o.cell, Mk(d, t.node, t.red, t.cell, Side(t, d), Side(o, d)), Side(o, d.Opp()))
  }

  lemma TurnApart(d: Dir, t: Shape)
    requires t.Bin? && Side(t, d.Opp()).Bin? && Apart(t)
    ensures Apart(Turn(d, t)) && Nodes(Turn(d, t)) == Nodes(t)
    ensures var o := Side(t, d.Opp()); var b := Side(o, d);
            t.node != o.node && (b.Bin? ==> t.node != b.node && o.node != b.node && b.node in Nodes(t))
  {
    var u := Turn(d, t);
    ApartBySides(t, d);
    ApartBySides(Side(t, d.Opp()), d);
    ApartBySides(u, d);
    ApartBySides(Side(u, d), d);
  }

  /** A rotation changes three records: the two nodes that swap places and the root of the middle subtree. */
  lemma TurnRecord(d: Dir, t: Shape, p: Node?, n: Node)
    requires t.Bin? && Side(t, d.Opp()).Bin? && Apart(t) && Apart(Turn(d, t)) && n in Nodes(t) && n in Nodes(Turn(d, t))
    ensures var o := Side(t, d.Opp()); var b := Side(o, d); var r := RecordIn(t, p, n);
            RecordIn(Turn(d, t), p, n) ==
            if n == t.node then WithChild(r, d.Opp(), RootOf(b)).(parent := o.node)
            else if n == o.node then WithChild(r, d, t.node).(parent := p)
            else if n == RootOf(b) then r.(parent := t.node)
            else r
  {
    var o, u := Side(t, d.Opp()), Turn(d, t);
    ApartBySides(t, d); ApartBySides(o, d); ApartBySides(u, d); ApartBySides(Side(u, d), d);
    RecordBySides(t, p, d, n);
    RecordBySides(u, p, d, n);
    if n in Nodes(o) { RecordBySides(o, t.node, d, n); }
    if n in Nodes(Side(u, d)) { RecordBySides(Side(u, d), o.node, d, n); }
    if n in Nodes(Side(o, d)) { Reparented(Side(o, d), o.node, t.node, n); }
  }

  /** The heap below `root` is the tree w. */
  ghost predicate Has(root: Node?, w: Shape)
    reads Nodes(w)
  {
    && Apart(w) && root == RootOf(w)
    && forall n | n in Nodes(w) :: View(n) == RecordIn(w, null, n)
  }

  /** Replacing the focus changes one record of its context: the pointer to the focus. */
  lemma Refocus(c: Ctx, t: Shape, u: Shape, n: Node)
    requires ApartZip(c, t) && ApartZip(c, u) && n in CtxNodes(c)
    requires n in Nodes(Plug(c, t)) && n in Nodes(Plug(c, u))
    ensures var r, r' := RecordIn(Plug(c, t), null, n), RecordIn(Plug(c, u), null, n);
            r' == if n == c.node then WithChild(r, c.dir, RootOf(u)) else r
    ensures n == c.node ==> (if c.dir.Left? then RecordIn(Plug(c, t), null, n).left else RecordIn(Plug(c, t), null, n).right) == RootOf(t)
  {
    PlugRecord(c, t, n);
    PlugRecord(c, u, n);
  }

  /** What a rotation below `above` makes of the record r of node n. */
  ghost function Turned(d: Dir, cur: Node, other: Node, below: Node?, above: Node?, side: Dir, n: Node, r: Record): Record {
    if n == cur then WithChild(r, d.Opp(), below).(parent := other)
    else if n == other then WithChild(r, d, cur).(parent := above)
    else if n == below then r.(parent := cur)
    else if n == above then WithChild(r, side, other)
    else r
  }

  lemma RotateRecord(c: Ctx, d: Dir, t: Shape, n: Node)
    requires t.Bin? && Side(t, d.Opp()).Bin? && Apart(Plug(c, t)) && n in Nodes(Plug(c, t))
    ensures n in Nodes(Plug(c, Turn(d, t))) && Apart(Plug(c, Turn(d, t)))
    ensures var o := Side(t, d.Opp());
            RecordIn(Plug(c, Turn(d, t)), null, n) ==
            Turned(d, t.node, o.node, RootOf(Side(o, d)), CtxParent(c), if c.Hole? then c.dir else d, n,
                   RecordIn(Plug(c, t), null, n))
  {
    var u := Turn(d, t);
    ApartPlug(c, t);
    TurnApart(d, t);
    ApartPlug(c, u);
    if n in Nodes(t) {
      PlugRecord(c, t, n);
      PlugRecord(c, u, n);
      TurnRecord(d, t, CtxParent(c), n);
    } else {
      Refocus(c, t, u, n);
    }
  }

  lemma PaintRecord(c: Ctx, t: Shape, red: bool, n: Node)
    requires t.Bin? && Apart(Plug(c, t)) && n in Nodes(Plug(c, t))
    ensures Apart(Plug(c, Paint(t, red))) && n in Nodes(Plug(c, Paint(t, red)))
    ensures var r := RecordIn(Plug(c, t), null, n);
            RecordIn(Plug(c, Paint(t, red)), null, n) == if n == t.node then r.(red := red) else r
  {
    var u := Paint(t, red);
    ApartPlug(c, t);
    ApartPlug(c, u);
    PlugRecord(c, t, n);
    PlugRecord(c, u, n);
  }

  ghost function Opt(n: Node?): set<Node> {
    if n == null then {} else {n}
  }

  lemma RootsApart(c: Ctx, t: Shape)
    requires t.Bin? && c.Hole? && Apart(Plug(c, t))
    ensures RootOf(c.sib) != t.node
  {
    ApartPlug(c, t);
  }

  lemma RootAbove(c: Ctx, t: Shape)
    requires c.Hole? && Apart(Plug(c, t))
    ensures RootOf(Plug(c, t)) in CtxNodes(c) && RootOf(c.sib) != c.node && (t.Bin? ==> RootOf(c.sib) != t.node && t.node !in CtxNodes(c))
  {
    ApartPlug(c, t);
    RootInCtx(c, t);
  }

  lemma {:induction false} RootInCtx(c: Ctx, t: Shape)
    requires c.Hole?
    ensures RootOf(Plug(c, t)) in CtxNodes(c)
  {
    if c.up.Hole? {
      RootInCtx(c.up, Mk(c.dir, c.node, c.red, c.cell, t, c.sib));
    }
  }

  lemma HoleNode(c: Ctx, t: Shape)
    requires c.Hole?
    ensures c.node in Nodes(Plug(c, t))
  {
    PlugNodes(c, t);
  }

  /** Taking out a vertex with at most one child changes two records. */
  lemma SpliceRecord(c: Ctx, t: Shape, n: Node)
    requires t.Bin? && (t.left.Leaf? || t.right.Leaf?) && Apart(Plug(c, t))
    requires n in Nodes(Plug(c, OnlyChild(t)))
    ensures Apart(Plug(c, OnlyChild(t))) && n in Nodes(Plug(c, t)) && n != t.node
    ensures var u, r := OnlyChild(t), RecordIn(Plug(c, t), null, n);
            RecordIn(Plug(c, u), null, n) ==
            if n == RootOf(u) then r.(parent := CtxParent(c))
            else if n == CtxParent(c) then WithChild(r, c.dir, RootOf(u))
            else r
  {
    var u := OnlyChild(t);
    ApartPlug(c, t);
    ApartPlug(c, u);
    assert ApartZip(c, u);
    PlugRecord(c, t, n);
    PlugRecord(c, u, n);
    if n in Nodes(u) {
      Reparented(u, t.node, CtxParent(c), n);
    }
  }

  lemma SameParent(c: Ctx, t: Shape, cell: Cell)
    requires t.Bin?
    ensures CtxParent(Excised(c, t, cell).ctx) == CtxParent(Excised(c, t, t.cell).ctx)
  {
    if t.left.Bin? && t.right.Bin? {
      LeftMostWithin(Top, Hole(Right, t.node, t.red, t.cell, t.left, c), t.right);
      LeftMostWithin(Top, Hole(Right, t.node, t.red, cell, t.left, c), t.right);
    }
  }

  ghost predicate Distinct(s: seq<Node>) {
    forall i, j :: 0 <= i < j < |s| ==> s[i] != s[j]
  }

  lemma DistinctAround(l: seq<Node>, n: Node, r: seq<Node>)
    requires Distinct(l) && Distinct(r) && n !in Elements(l) && n !in Elements(r) && Elements(l) !! Elements(r)
    ensures Distinct(l + [n] + r)
  {
    var s, k := l + [n] + r, |l|;
    assert s[k] == n && s[..k] == l && s[k + 1..] == r;
    forall i, j | 0 <= i < j < |s| ensures s[i] != s[j] {
      if i < k { assert s[i] == l[i] && l[i] in Elements(l); }
      if j < k { assert s[j] == l[j]; }
      if i > k { assert s[i] == r[i - k - 1]; }
      if j > k { assert s[j] == r[j - k - 1] && r[j - k - 1] in Elements(r); }
    }
  }

  lemma {:induction false} OrderDistinct(t: Shape)
    requires Apart(t)
    ensures Distinct(Order(t))
  {
    if t.Bin? {
      OrderDistinct(t.left);
      OrderDistinct(t.right);
      OrderNodes(t.left);
      OrderNodes(t.right);
      DistinctAround(Order(t.left), t.node, Order(t.right));
    }
  }

  lemma {:induction false} OrderCells(t: Shape, parent: Node?, i: nat)
    requires Apart(t) && i < |Order(t)|
    ensures Order(t)[i] in Nodes(t) && |Cells(t)| == |Order(t)|
    ensures RecordIn(t, parent, Order(t)[i]).cell == Cells(t)[i]
  {
    OrderNodes(t);
    OrderNodes(t.left);
    OrderNodes(t.right);
    var l := |Order(t.left)|;
    if i < l {
      OrderCells(t.left, t.node, i);
    } else if i > l {
      OrderCells(t.right, t.node, i - l - 1);
      assert Order(t)[i] == Order(t.right)[i - l - 1] && Cells(t)[i] == Cells(t.right)[i - l - 1];
    } else {
      assert Order(t)[i] == t.node && Cells(t)[i] == t.cell;
    }
  }

  /** What the pointers around a node to be rotated are. */
  lemma RotateFacts(c: Ctx, d: Dir, t: Shape)
    requires t.Bin? && Side(t, d.Opp()).Bin? && Apart(Plug(c, t))
    ensures var w, w', o := Plug(c, t), Plug(c, Turn(d, t)), Side(t, d.Opp());
            var b := Side(o, d);
            && Nodes(w') == Nodes(w) && Apart(w') && t.node in Nodes(t) && o.node in Nodes(t) && Nodes(t) <= Nodes(w)
            && t.node != o.node && t.node != RootOf(b) && o.node != RootOf(b) && (b.Bin? ==> b.node in Nodes(t))
            && (var r := RecordIn(w, null, t.node);
                r == MkRecord(d, CtxParent(c), RootOf(Side(t, d)), o.node, t.red, t.cell))
            && (var r := RecordIn(w, null, o.node);
                r == MkRecord(d, t.node, RootOf(b), RootOf(Side(o, d.Opp())), o.red, o.cell))
            && (c.Top? ==> RootOf(w') == o.node)
            && (c.Hole? ==> RootOf(w') == RootOf(w) && c.node in Nodes(w) && c.node !in Nodes(t)
                            && var r := RecordIn(w, null, c.node);
                            r == MkRecord(c.dir, r.parent, t.node, RootOf(c.sib), c.red, c.cell) && RootOf(c.sib) != t.node)
  {
    var o := Side(t, d.Opp());
    ApartPlug(c, t);
    TurnApart(d, t);
    ApartPlug(c, Turn(d, t));
    ApartBySides(t, d);
    PlugRecord(c, t, t.node);
    RecordBySides(t, CtxParent(c), d, t.node);
    PlugRecord(c, t, o.node);
    RecordBySides(t, CtxParent(c), d, o.node);
    RecordBySides(o, t.node, d, o.node);
    if c.Hole? {
      PlugRecord(c, t, c.node);
      PlugRoot(c, t, Turn(d, t));
    }
  }

  class Tree {
    var root: Node?
    var count: nat
    var size: nat
    var allowDuplicates: bool
    ghost var shape: Shape

    /** The heap holds `shape`, in search order, and the two totals are right. */
    ghost predicate Ordered()
      reads this, Nodes(shape)
    {
      && Has(root, shape) && Sorted(Cells(shape))
      && count == |Cells(shape)| && size == TotalSize(Cells(shape))
    }

    /** Also the red-black rules hold. */
    ghost predicate Valid()
      reads this, Nodes(shape)
    {
      Ordered() && Sound(shape)
    }

    /** What the tree holds, by key. */
    ghost function Contents(): map<int, Cell>
      reads this`shape
    {
      Entries(Cells(shape))
    }

    constructor ()
      ensures Valid() && Contents() == map[] && !allowDuplicates
    {
      root := null;
      count, size, allowDuplicates := 0, 0, false;
      shape := Leaf;
    }

    /** Makes the pointer to `from`, child d of its parent or the root, point to `to`. */
    method Relink(parent: Node?, from: Node, to: Node?, dir: Dir, ghost d: Dir)
      requires parent != null ==> parent.Child(d) == from && parent.Child(d.Opp()) != from
      modifies this`root, Opt(parent)`left, Opt(parent)`right
      ensures root == if parent == null then to else old(root)
      ensures parent != null ==> View(parent) == WithChild(old(View(parent)), d, to)
    {
      if parent == null {
        root := to;
      } else if from == parent.Child(dir) {
        parent.SetChild(dir, to);
      } else {
        parent.SetChild(dir.Opp(), to);
      }
    }

    /** The pointers that a rotation rewrites, and nothing else. */
    method TreeRotate(cur: Node, dir: Dir, ghost d: Dir)
      requires cur.Child(dir.Opp()) != null
      requires var other: Node := cur.Child(dir.Opp()); var below, above := other.Child(dir), cur.parent;
               && cur != other && below != cur && below != other
               && above != cur && above != other && (above != null ==> above != below)
               && (above != null ==> above.Child(d) == cur && above.Child(d.Opp()) != cur)
      modifies this`root, cur, Opt(cur.parent), Opt(cur.Child(dir.Opp())),
               Opt(if cur.Child(dir.Opp()) == null then null else cur.Child(dir.Opp()).Child(dir))
      ensures var other: Node := old(cur.Child(dir.Opp())); var below, above := old(other.Child(dir)), old(cur.parent);
              && root == (if above == null then other else old(root))
              && forall n | n in {cur, other} + Opt(below) + Opt(above) ::
                   View(n) == Turned(dir, cur, other, below, above, d, n, old(View(n)))
    {
      var other := cur.Child(dir.Opp());
      var below := other.Child(dir);
      cur.SetChild(dir.Opp(), below);
      if below != null {
        below.parent := cur;
      }
      other.parent := cur.parent;
      Relink(cur.parent, cur, other, dir, d);
      other.SetChild(dir, cur);
      cur.parent := other;
    }

    /** A rotation, as a change of shape. */
    method Rotate(cur: Node, dir: Dir, ghost c: Ctx, ghost t: Shape)
      requires t.Bin? && t.node == cur && Side(t, dir.Opp()).Bin?
      requires Has(root, Plug(c, t))
      modifies this`root, Nodes(Plug(c, t))
      ensures Has(root, Plug(c, Turn(dir, t))) && Nodes(Plug(c, Turn(dir, t))) == Nodes(Plug(c, t))
    {
      ghost var w, w', o := Plug(c, t), Plug(c, Turn(dir, t)), Side(t, dir.Opp());
      RotateFacts(c, dir, t);
      assert allocated(Nodes(w));
      TreeRotate(cur, dir, if c.Hole? then c.dir else dir);
      forall n | n in Nodes(w') ensures View(n) == RecordIn(w', null, n) {
        RotateRecord(c, dir, t, n);
      }
    }

    /** Recolours the root of the focus. */
    method SetRed(n: Node, red: bool, ghost c: Ctx, ghost t: Shape)
      requires t.Bin? && t.node == n && Has(root, Plug(c, t))
      modifies n`red
      ensures Has(root, Plug(c, Paint(t, red))) && Nodes(Plug(c, Paint(t, red))) == Nodes(Plug(c, t))
    {
      ghost var w, w' := Plug(c, t), Plug(c, Paint(t, red));
      ApartPlug(c, t);
      ApartPlug(c, Paint(t, red));
      PlugRoot(c, t, Paint(t, red));
      n.red := red;
      forall k | k in Nodes(w') ensures View(k) == RecordIn(w', null, k) {
        PaintRecord(c, t, red, k);
      }
    }

    /** What the fields of the focus and of the node above it are. */
    lemma Look(c: Ctx, t: Shape, d: Dir)
      requires t.Bin? && Has(root, Plug(c, t))
      ensures t.node in Nodes(Plug(c, t))
      ensures View(t.node) == MkRecord(d, CtxParent(c), RootOf(Side(t, d)), RootOf(Side(t, d.Opp())), t.red, t.cell)
      ensures t.node.Child(d) == RootOf(Side(t, d)) && t.node.Child(d.Opp()) == RootOf(Side(t, d.Opp()))
    {
      ApartPlug(c, t);
      PlugRecord(c, t, t.node);
      RecordBySides(t, CtxParent(c), d, t.node);
    }

    /** Around a node with a grandparent: what its parent, grandparent and uncle are. */
    lemma LookUp(c: Ctx, t: Shape)
      requires t.Bin? && c.Hole? && c.up.Hole? && Has(root, Plug(c, t))
      ensures t.node.parent == c.node && c.node.parent == c.up.node
      ensures c.node.Child(c.dir) == t.node && c.node.Child(c.dir.Opp()) == RootOf(c.sib) && c.node.red == c.red
      ensures c.up.node.Child(c.up.dir) == c.node && c.up.node.Child(c.up.dir.Opp()) == RootOf(c.up.sib)
      ensures c.up.sib.Bin? ==> c.up.sib.node.red == c.up.sib.red
      ensures {t.node, c.node, c.up.node} + Opt(RootOf(c.up.sib)) <= Nodes(Plug(c, t))
      ensures t.node != RootOf(c.sib)
    {
      var tp := Mk(c.dir, c.node, c.red, c.cell, t, c.sib);
      var g := c.up;
      var tg := Mk(g.dir, g.node, g.red, g.cell, tp, g.sib);
      Look(c, t, c.dir);
      Look(g, tp, c.dir);
      Look(g.up, tg, g.dir);
      if g.sib.Bin? {
        Look(Hole(g.dir.Opp(), g.node, g.red, g.cell, tp, g.up), g.sib, g.dir);
      }
      ApartPlug(c, t);
    }

    /** The uncle is red: the red colour of parent and uncle moves up to the grandparent. */
    method RaiseRed(cur: Node, uncle: Node, ghost c: Ctx, ghost t: Shape) returns (r: Node)
      requires t.Bin? && t.node == cur && c.Hole? && c.up.Hole? && IsRed(c.up.sib) && uncle == c.up.sib.node
      requires Has(root, Plug(c, t))
      modifies Nodes(Plug(c, t))`red
      ensures var z := AddStep(c, t); Has(root, Whole(z)) && z.tree.Bin? && r == z.tree.node
    {
      ghost var Hole(d1, p, pred, pc, s, Hole(d2, g, gred, gc, u, up)) := c;
      ghost var tp := Mk(d1, p, pred, pc, t, s);
      LookUp(c, t);
      SetRed(cur.parent, false, c.up, tp);
      SetRed(uncle, false, Hole(d2.Opp(), g, gred, gc, Paint(tp, false), up), u);
      r := cur.parent.parent;
      SetRed(r, true, up, Mk(d2, g, gred, gc, Paint(tp, false), Paint(u, false)));
    }

    /** The parent, turned black, is rotated over the grandparent, turned red. */
    method SwingOuter(cur: Node, which: Dir, ghost c: Ctx, ghost t: Shape)
      requires t.Bin? && t.node == cur && c.Hole? && c.up.Hole? && c.dir == c.up.dir && which == c.dir.Opp()
      requires Has(root, Plug(c, t))
      modifies this`root, Nodes(Plug(c, t))
      ensures var z := LiftOuter(Zip(c, t)); Has(root, Whole(z))
    {
      ghost var tp := Mk(c.dir, c.node, c.red, c.cell, t, c.sib);
      ghost var g := c.up;
      ghost var tg := Mk(g.dir, g.node, g.red, g.cell, Paint(tp, false), g.sib);
      LookUp(c, t);
      SetRed(cur.parent, false, c.up, tp);
      SetRed(cur.parent.parent, true, g.up, tg);
      Rotate(cur.parent.parent, which, g.up, Paint(tg, true));
    }

    lemma ParentOf(c: Ctx, t: Shape)
      requires t.Bin? && Has(root, Plug(c, t))
      ensures t.node.parent == CtxParent(c)
      ensures c.Hole? ==> c.node.parent == CtxParent(c.up) && c.node.red == c.red && c.node in Nodes(Plug(c, t))
      ensures c.Hole? && c.up.Hole? ==> (c.node == c.up.node.left <==> c.up.dir.Left?)
    {
      Look(c, t, Left);
      if c.Hole? {
        var tp := Mk(c.dir, c.node, c.red, c.cell, t, c.sib);
        Look(c.up, tp, Left);
        if c.up.Hole? {
          LookUp(c, t);
          RootsApart(c.up, tp);
        }
      }
    }

    method TreeBAASub(cur: Node, which: Dir, ghost c: Ctx, ghost t: Shape) returns (r: Node)
      requires t.Bin? && t.node == cur && c.Hole? && c.up.Hole? && which == c.up.dir.Opp()
      requires Has(root, Plug(c, t))
      modifies this`root, Nodes(Plug(c, t))
      ensures var z := AddStep(c, t); Has(root, Whole(z)) && z.tree.Bin? && r == z.tree.node
    {
      LookUp(c, t);
      var uncle := cur.parent.parent.Child(which);
      if uncle != null && uncle.red {
        r := RaiseRed(cur, uncle, c, t);
      } else if cur == cur.parent.Child(which) {
        r := cur.parent;
        ghost var tp := Mk(c.dir, c.node, c.red, c.cell, t, c.sib);
        ghost var z := LiftInner(c, t);
        Rotate(r, which.Opp(), c.up, tp);
        SwingOuter(r, which, z.ctx, z.tree);
      } else {
        r := cur;
        SwingOuter(r, which, c, t);
      }
    }

    method TreeBalanceAfterAdd(node: Node, ghost c0: Ctx, ghost t0: Shape)
      requires t0.Bin? && t0.node == node
      requires Has(root, Plug(c0, t0))
      modifies this`root, Nodes(Plug(c0, t0))
      ensures Has(root, AfterAdd(c0, t0))
    {
      var cur := node;
      ghost var c, t := c0, t0;
      Look(c, t, Left);
      while cur.parent != null && cur.parent.red && cur.parent.parent != null
        invariant t.Bin? && t.node == cur && Has(root, Plug(c, t)) && Nodes(Plug(c, t)) == Nodes(Plug(c0, t0))
        invariant AfterAdd(c, t) == AfterAdd(c0, t0)
        decreases Depth(c)
      {
        ParentOf(c, t);
        AddStepCells(c, t);
        AddStepClimbs(c, t);
        ghost var z := AddStep(c, t);
        if cur.parent == cur.parent.parent.left {
          cur := TreeBAASub(cur, Right, c, t);
        } else {
          cur := TreeBAASub(cur, Left, c, t);
        }
        c, t := z.ctx, z.tree;
      }
      ParentOf(c, t);
      PlugBin(c, t);
      SetRed(root, false, Top, Plug(c, t));
    }

    /** Adding over an existing key repairs at a node that does not need it; here that goes wrong. */
    ghost predicate AddBreaksRules(k: int)
      reads this`shape, this`allowDuplicates
    {
      var z := Seek(Top, shape, k);
      !allowDuplicates && BlackInner(z.ctx, z.tree)
    }

    /** Hangs a new red node in the place where a search ended. */
    method Attach(newel: Node, above: Node?, left: Dir, ghost c: Ctx)
      requires Has(root, Plug(c, Leaf)) && newel !in Nodes(Plug(c, Leaf))
      requires above == CtxParent(c) && (c.Hole? ==> left == c.dir)
      requires newel.left == null && newel.right == null
      modifies this`root, newel`parent, newel`red, Opt(above)`left, Opt(above)`right
      ensures Has(root, Plug(c, Bin(newel, true, Cell(newel.content, newel.size), Leaf, Leaf)))
    {
      ghost var cell := Cell(newel.content, newel.size);
      ghost var w, leaf := Plug(c, Leaf), Bin(newel, true, cell, Leaf, Leaf);
      ghost var w' := Plug(c, leaf);
      assert allocated(Nodes(w));
      ApartPlug(c, Leaf);
      ApartPlug(c, leaf);
      PlugRoot(c, Leaf, leaf);
      if above != null {
        above.SetChild(left, newel);
      } else {
        root := newel;
      }
      newel.parent := above;
      newel.red := true;
      forall n | n in Nodes(w') ensures View(n) == RecordIn(w', null, n) {
        if n == newel {
          PlugRecord(c, leaf, n);
        } else {
          Refocus(c, Leaf, leaf, n);
        }
      }
    }

    /** Overwrites what the root of the focus holds. */
    method SetCell(n: Node, content: Content, size: nat, ghost c: Ctx, ghost t: Shape)
      requires t.Bin? && t.node == n && Has(root, Plug(c, t))
      modifies n`content, n`size
      ensures Has(root, Plug(c, t.(cell := Cell(content, size))))
    {
      ghost var u := t.(cell := Cell(content, size));
      ghost var w' := Plug(c, u);
      ApartPlug(c, t);
      ApartPlug(c, u);
      PlugRoot(c, t, u);
      n.content := content;
      n.size := size;
      forall k | k in Nodes(w') ensures View(k) == RecordIn(w', null, k) {
        PlugRecord(c, t, k);
        PlugRecord(c, u, k);
      }
    }

    /** Where the search for k stops, with the node there and the node above it. */
    method Search(key: Content) returns (cur: Node?, above: Node?, left: Dir, result: int)
      requires Ordered() && key.Content?
      ensures Ordered()
      ensures var z := Seek(Top, shape, key.key);
              && cur == RootOf(z.tree) && above == CtxParent(z.ctx) && (z.tree.Leaf? && z.ctx.Hole? ==> left == z.ctx.dir)
              && (result == 0 <==> z.tree.Bin?)
    {
      ghost var c, t := Top, shape;
      cur, above, left, result := root, null, Left, 1;
      while cur != null
        invariant Plug(c, t) == shape && cur == RootOf(t) && above == CtxParent(c) && (c.Hole? ==> left == c.dir)
        invariant Seek(c, t, key.key) == Seek(Top, shape, key.key)
        invariant result != 0 && Has(root, Plug(c, t))
        decreases t
      {
        Look(c, t, Left);
        CellsAround(c, t);
        SortedAround(Before(c) + Cells(t.left), t.cell, Cells(t.right) + After(c));
        result := Compare(cur.content, key);
        left := if result > 0 then Right else Left;
        if result == 0 {
          break;
        } else {
          above := cur;
          cur := cur.Child(left);
          c, t := Hole(left, t.node, t.red, t.cell, Side(t, left.Opp()), c), Side(t, left);
        }
      }
    }

    /** A new node for the place where a search ended, counted and filled in. */
    method Insert(content: Content, size: nat, above: Node?, left: Dir, ghost c: Ctx) returns (newel: Node)
      requires Has(root, Plug(c, Leaf))
      requires above == CtxParent(c) && (c.Hole? ==> left == c.dir)
      modifies this`root, this`count, this`size, Opt(above)`left, Opt(above)`right
      ensures fresh(newel) && Has(root, Plug(c, Bin(newel, true, Cell(content, size), Leaf, Leaf)))
      ensures count == old(count) + 1 && this.size == old(this.size) + size
    {
      assert allocated(Nodes(Plug(c, Leaf)));
      newel := new Node(null, NoContent, 0, false);
      Attach(newel, above, left, c);
      count := count + 1;
      this.size := this.size + size;
      SetCell(newel, content, size, c, Bin(newel, true, Cell(NoContent, 0), Leaf, Leaf));
    }

    /** The existing node takes the new content. */
    method Overwrite(cur: Node, content: Content, size: nat, ghost c: Ctx, ghost t: Shape)
      requires t.Bin? && t.node == cur && Has(root, Plug(c, t)) && this.size == TotalSize(Cells(Plug(c, t)))
      modifies this`size, cur`content, cur`size
      ensures Has(root, Plug(c, t.(cell := Cell(content, size))))
      ensures this.size == old(this.size) - t.cell.size + size
    {
      Look(c, t, Left);
      CellAt(Plug(c, t), c, t);
      this.size := this.size + size - cur.size;
      SetCell(cur, content, size, c, t);
    }

    /** The subtree where a search ended, once the item is there. */
    ghost function Placed(content: Content, size: nat, newel: Node, t: Shape): Shape {
      if t.Bin? then t.(cell := Cell(content, size)) else Bin(newel, true, Cell(content, size), Leaf, Leaf)
    }

    method Place(content: Content, size: nat, cur: Node?, above: Node?, left: Dir, ghost c: Ctx, ghost t: Shape) returns (newel: Node)
      requires Has(root, Plug(c, t)) && this.size == TotalSize(Cells(Plug(c, t)))
      requires cur == RootOf(t) && above == CtxParent(c) && (c.Hole? && t.Leaf? ==> left == c.dir)
      modifies this`root, this`count, this`size, Nodes(Plug(c, t))
      ensures Has(root, Plug(c, Placed(content, size, newel, t))) && Placed(content, size, newel, t).node == newel
      ensures Nodes(Plug(c, Placed(content, size, newel, t))) == Nodes(Plug(c, t)) + {newel}
      ensures newel in Nodes(Plug(c, t)) || fresh(newel)
      ensures count == old(count) + if t.Bin? then 0 else 1
      ensures this.size == old(this.size) + size - if t.Bin? then t.cell.size else 0
    {
      if cur != null {
        newel := cur;
        Look(c, t, Left);
        Overwrite(newel, content, size, c, t);
      } else {
        if c.Hole? { HoleNode(c, t); }
        newel := Insert(content, size, above, left, c);
      }
      PlugNodes(c, t);
      PlugNodes(c, Placed(content, size, newel, t));
    }

    method PlaceAndRepair(content: Content, size: nat, cur: Node?, above: Node?, left: Dir) returns (newel: Node)
      requires Has(root, shape) && this.size == TotalSize(Cells(shape)) && content.Content?
      requires var z := Seek(Top, shape, content.key);
               cur == RootOf(z.tree) && above == CtxParent(z.ctx) && (z.ctx.Hole? && z.tree.Leaf? ==> left == z.ctx.dir)
      modifies this`root, this`count, this`size, this`shape, Nodes(shape)
      ensures newel in old(Nodes(shape)) || fresh(newel)
      ensures shape == Added(old(shape), Cell(content, size), newel) && Has(root, shape)
      ensures var t := Seek(Top, old(shape), content.key).tree;
              && count == old(count) + (if t.Bin? then 0 else 1)
              && this.size == old(this.size) + size - if t.Bin? then t.cell.size else 0
    {
      ghost var z := Seek(Top, shape, content.key);
      newel := Place(content, size, cur, above, left, z.ctx, z.tree);
      TreeBalanceAfterAdd(newel, z.ctx, Placed(content, size, newel, z.tree));
      shape := Added(shape, Cell(content, size), newel);
    }

    /** Adds an item, or puts it in the place of the one with the same key. */
    method TreeAddByIndex(content: Content, size: nat) returns (rc: Content)
      requires Ordered() && content.Content?
      modifies this`root, this`count, this`size, this`shape, Nodes(shape)
      ensures Ordered() && fresh(Nodes(shape) - old(Nodes(shape)))
      ensures old(Sound(shape)) ==> (Sound(shape) <==> !old(AddBreaksRules(content.key)))
      ensures old(Sound(shape)) && content.key !in old(Contents()) ==> Sound(shape)
      ensures var ignored := allowDuplicates && content.key in old(Contents());
              && rc == (if ignored then NoContent else content)
              && Contents() == if ignored then old(Contents()) else old(Contents())[content.key := Cell(content, size)]
    {
      ghost var w := shape;
      var cur, above, left, result := Search(content);
      if result == 0 && allowDuplicates {
        AddedOver(w, Cell(content, size), cur);
        rc := NoContent;
      } else {
        var newel := PlaceAndRepair(content, size, cur, above, left);
        rc := content;
        AddedFacts(w, Cell(content, size), newel);
      }
    }

    /** What the sibling of the focus is. */
    lemma LookAside(c: Ctx, t: Shape)
      requires c.Hole? && Has(root, Plug(c, t))
      ensures c.node in Nodes(Plug(c, t)) && c.node.red == c.red && c.node.parent == CtxParent(c.up)
      ensures c.node.Child(c.dir) == RootOf(t) && c.node.Child(c.dir.Opp()) == RootOf(c.sib)
      ensures c.sib.Bin? ==>
                var s := c.sib;
                && s.node in Nodes(Plug(c, t)) && s.node.red == s.red
                && s.node.Child(c.dir) == RootOf(Side(s, c.dir)) && s.node.Child(c.dir.Opp()) == RootOf(Side(s, c.dir.Opp()))
      ensures t.Bin? ==> t.node in Nodes(Plug(c, t)) && t.node.parent == c.node && t.node.red == t.red
    {
      Look(c.up, Mk(c.dir, c.node, c.red, c.cell, t, c.sib), c.dir);
      if c.sib.Bin? {
        Look(SibCtx(c, t), c.sib, c.dir);
      }
      if t.Bin? {
        Look(c, t, Left);
      }
    }

    /** The same one level further down: the colours of the sibling's children. */
    lemma LookNephews(c: Ctx, t: Shape)
      requires c.Hole? && c.sib.Bin? && Has(root, Plug(c, t))
      ensures var s := c.sib;
              && (s.left.Bin? ==> s.left.node in Nodes(Plug(c, t)) && s.left.node.red == s.left.red)
              && (s.right.Bin? ==> s.right.node in Nodes(Plug(c, t)) && s.right.node.red == s.right.red)
    {
      var s := c.sib;
      if s.left.Bin? {
        Look(Hole(Left, s.node, s.red, s.cell, s.right, SibCtx(c, t)), s.left, Left);
      }
      if s.right.Bin? {
        Look(Hole(Right, s.node, s.red, s.cell, s.left, SibCtx(c, t)), s.right, Left);
      }
    }

    method LiftSibling(p: Node, sibling: Node, which: Dir, ghost c: Ctx, ghost t: Shape)
      requires c.Hole? && IsRed(c.sib) && which == c.dir.Opp() && p == c.node && sibling == c.sib.node
      requires Has(root, Plug(c, t))
      modifies this`root, Nodes(Plug(c, t))
      ensures Has(root, Plug(LiftRed(c), t)) && Nodes(Plug(LiftRed(c), t)) == Nodes(Plug(c, t))
    {
      ghost var w := Mk(c.dir, p, c.red, c.cell, t, Paint(c.sib, false));
      LookAside(c, t);
      SetRed(sibling, false, SibCtx(c, t), c.sib);
      SetRed(p, true, c.up, w);
      Rotate(p, which.Opp(), c.up, Paint(w, true));
    }

    method FetchFarRed(sibling: Node, which: Dir, ghost c: Ctx, ghost t: Shape)
      requires c.Hole? && c.sib.Bin? && sibling == c.sib.node && which == c.dir.Opp()
      requires !IsRed(Side(c.sib, which)) && Side(c.sib, c.dir).Bin?
      requires Has(root, Plug(c, t))
      modifies this`root, Nodes(Plug(c, t))
      ensures var c' := c.(sib := FarRed(c.dir, c.sib)); Has(root, Plug(c', t)) && Nodes(Plug(c', t)) == Nodes(Plug(c, t))
    {
      hide Has, Nodes, RecordIn;
      ghost var s, far, near := c.sib, Side(c.sib, which), Side(c.sib, c.dir);
      ghost var s' := Mk(c.dir, s.node, s.red, s.cell, Paint(near, false), far);
      LookAside(c, t);
      LookNephews(c, t);
      SetRed(sibling.Child(which.Opp()), false, Hole(c.dir, s.node, s.red, s.cell, far, SibCtx(c, t)), near);
      SetRed(sibling, true, SibCtx(c, t), s');
      Rotate(sibling, which, SibCtx(c, t), Paint(s', true));
    }

    method SpreadOut(p: Node, sibling: Node, which: Dir, ghost c: Ctx, ghost t: Shape)
      requires c.Hole? && c.sib.Bin? && p == c.node && sibling == c.sib.node && which == c.dir.Opp() && Side(c.sib, which).Bin?
      requires Has(root, Plug(c, t))
      modifies this`root, Nodes(Plug(c, t))
      ensures Has(root, Plug(c.up, Spread(c.dir, c.node, c.red, c.cell, t, c.sib)))
    {
      hide Has, Nodes, RecordIn;
      ghost var d, s, far, near := c.dir, c.sib, Side(c.sib, which), Side(c.sib, c.dir);
      ghost var w := Mk(d, c.node, c.red, c.cell, t, Paint(s, c.red));
      LookAside(c, t);
      LookNephews(c, t);
      SetRed(sibling, p.red, SibCtx(c, t), s);
      SetRed(p, false, c.up, w);
      ghost var c' := c.(sib := Paint(s, c.red), red := false);
      SetRed(sibling.Child(which), false, Hole(which, s.node, c.red, s.cell, near, SibCtx(c', t)), far);
      ghost var s' := Mk(d, s.node, c.red, s.cell, near, Paint(far, false));
      Rotate(p, which.Opp(), c.up, Mk(d, c.node, false, c.cell, t, s'));
    }

    method TreeBARSub(cur: Node, which: Dir, ghost c: Ctx, ghost t: Shape) returns (r: Node)
      requires c.Hole? && which == c.dir.Opp() && cur.parent == c.node
      requires if t.Bin? then cur == t.node else cur !in Nodes(Plug(c, t))
      requires Has(root, Plug(c, t))
      modifies this`root, Nodes(Plug(c, t))
      ensures var z := RemoveStep(c, t); Has(root, Whole(z)) && Nodes(Whole(z)) == Nodes(Plug(c, t)) && RootOf(z.tree) == r
    {
      ghost var c' := LiftRed(c);
      RemoveStepCells(c, t);
      LookAside(c, t);
      var sibling := cur.parent.Child(which);
      if sibling != null && sibling.red {
        LiftSibling(cur.parent, sibling, which, c, t);
        LookAside(c', t);
        sibling := cur.parent.Child(which);
      }
      r := Rebalance(cur.parent, sibling, which, c', t);
    }

    /** A child of the sibling is red: it pays for the missing black vertex. */
    method UseRedNephew(p: Node, sib: Node, which: Dir, ghost c: Ctx, ghost t: Shape)
      requires c.Hole? && c.sib.Bin? && p == c.node && sib == c.sib.node && which == c.dir.Opp()
      requires IsRed(c.sib.left) || IsRed(c.sib.right)
      requires Has(root, Plug(c, t))
      modifies this`root, Nodes(Plug(c, t))
      ensures Has(root, Plug(c.up, Spread(c.dir, c.node, c.red, c.cell, t, FarRed(c.dir, c.sib))))
    {
      hide Has, Nodes, RecordIn;
      ghost var c' := c;
      var sibling := sib;
      LookAside(c, t);
      LookNephews(c, t);
      if sibling.Child(which) == null || !sibling.Child(which).red {
        FetchFarRed(sibling, which, c, t);
        c' := c.(sib := FarRed(c.dir, c.sib));
        LookAside(c', t);
        sibling := p.Child(which);
      }
      SpreadOut(p, sibling, which, c', t);
    }

    /** The sibling is black or absent. */
    method Rebalance(p: Node, sib: Node?, which: Dir, ghost c: Ctx, ghost t: Shape) returns (r: Node)
      requires c.Hole? && which == c.dir.Opp() && p == c.node && sib == RootOf(c.sib)
      requires Has(root, Plug(c, t))
      modifies this`root, Nodes(Plug(c, t))
      ensures var z := RestStep(c, t); Has(root, Whole(z)) && RootOf(z.tree) == r
    {
      LookAside(c, t);
      var sibling := sib;
      if sibling == null {
        r := p;
      } else {
        LookNephews(c, t);
        if (sibling.left == null || !sibling.left.red) && (sibling.right == null || !sibling.right.red) {
          SetRed(sibling, true, SibCtx(c, t), c.sib);
          r := p;
        } else {
          UseRedNephew(p, sibling, which, c, t);
          PlugBin(c.up, Spread(c.dir, c.node, c.red, c.cell, t, FarRed(c.dir, c.sib)));
          r := root;
        }
      }
    }

    /** cur stands for the focus: it is its root, or a stand-in without content where the focus is a leaf. */
    ghost predicate StandsFor(cur: Node, c: Ctx, t: Shape)
      reads cur
    {
      if t.Bin? then cur == t.node
      else c.Hole? && cur.content.NoContent? && !cur.red && cur.parent == c.node && cur !in CtxNodes(c)
    }

    /** How the loop tells which child it is at, and that it is not at the root. */
    lemma LookStanding(cur: Node, c: Ctx, t: Shape)
      requires Has(root, Plug(c, t)) && StandsFor(cur, c, t) && Sorted(Cells(Plug(c, t)))
      ensures cur == root <==> c.Top?
      ensures cur.red == IsRed(t)
      ensures c.Hole? ==> cur.parent == c.node && c.node in Nodes(Plug(c, t))
      ensures c.Hole? ==>
                ((if cur.content.Content? then cur else null) == c.node.left <==> c.dir.Left? || (t.Leaf? && c.sib.Leaf?))
      ensures if t.Bin? then cur in Nodes(Plug(c, t)) else cur !in Nodes(Plug(c, t))
    {
      ApartPlug(c, t);
      if t.Bin? {
        Look(c, t, Left);
        CellsAround(c, t);
        SortedAround(Before(c) + Cells(t.left), t.cell, Cells(t.right) + After(c));
      }
      if c.Hole? {
        LookAside(c, t);
        RootAbove(c, t);
      }
    }

    method TreeBalanceAfterRemove(node: Node, ghost c0: Ctx, ghost t0: Shape)
      requires Has(root, Plug(c0, t0)) && StandsFor(node, c0, t0) && Sorted(Cells(Plug(c0, t0)))
      modifies this`root, Nodes(Plug(c0, t0)), node`red
      ensures Has(root, AfterRemove(c0, t0))
    {
      var cur := node;
      ghost var c, t := c0, t0;
      LookStanding(cur, c, t);
      while cur != root && !cur.red
        invariant Has(root, Plug(c, t)) && StandsFor(cur, c, t)
        invariant Cells(Plug(c, t)) == Cells(Plug(c0, t0)) && Nodes(Plug(c, t)) == Nodes(Plug(c0, t0))
        invariant AfterRemove(c, t) == AfterRemove(c0, t0)
        decreases RemoveMeasure(c, t)
      {
        LookStanding(cur, c, t);
        RemoveStepClimbs(c, t);
        RemoveStepCells(c, t);
        if t.Leaf? && c.sib.Leaf? {
          EitherSide(c);
          c := c.(dir := Left);
        }
        if (if cur.content.Content? then cur else null) == cur.parent.left {
          cur := TreeBARSub(cur, Right, c, t);
        } else {
          cur := TreeBARSub(cur, Left, c, t);
        }
        c, t := RemoveStep(c, t).ctx, RemoveStep(c, t).tree;
      }
      LookStanding(cur, c, t);
      SetRed(cur, false, c, t);
    }

    method TreeMinimum(node: Node?, ghost c0: Ctx, ghost t0: Shape) returns (cur: Node?)
      requires Has(root, Plug(c0, t0)) && node == RootOf(t0)
      ensures cur == if t0.Bin? then First(t0) else null
      ensures t0.Bin? ==> cur == LeftMost(c0, t0).tree.node
    {
      cur := node;
      if cur != null {
        ghost var c, t := c0, t0;
        Look(c, t, Left);
        while cur.left != null
          invariant t.Bin? && cur == t.node && Has(root, Plug(c, t)) && cur.left == RootOf(t.left)
          invariant First(t) == First(t0) && LeftMost(c, t) == LeftMost(c0, t0)
          decreases t
        {
          cur := cur.left;
          c, t := Hole(Left, t.node, t.red, t.cell, t.right, c), t.left;
          Look(c, t, Left);
        }
      }
    }

    method TreeSuccessor(node: Node, ghost c0: Ctx, ghost t0: Shape) returns (cur: Node?)
      requires Has(root, Plug(c0, t0)) && t0.Bin? && node == t0.node
      ensures cur == Next(c0, t0)
      ensures t0.right.Bin? ==> cur == LeftMost(Hole(Right, t0.node, t0.red, t0.cell, t0.left, c0), t0.right).tree.node
    {
      cur := node;
      Look(c0, t0, Left);
      if cur.right != null {
        cur := TreeMinimum(cur.right, Hole(Right, t0.node, t0.red, t0.cell, t0.left, c0), t0.right);
      } else {
        ghost var c, t := c0, t0;
        var above := cur.parent;
        while above != null && cur == above.right
          invariant t.Bin? && cur == t.node && Has(root, Plug(c, t)) && above == CtxParent(c) && Climb(c) == Climb(c0)
          decreases c
        {
          LookAside(c, t);
          RootAbove(c, t);
          cur := above;
          above := above.parent;
          c, t := c.up, Mk(c.dir, c.node, c.red, c.cell, t, c.sib);
        }
        if above != null {
          LookAside(c, t);
        }
        cur := above;
      }
    }

    lemma SpliceFacts(c: Ctx, t: Shape)
      requires t.Bin? && (t.left.Leaf? || t.right.Leaf?) && Has(root, Plug(c, t))
      ensures var u := OnlyChild(t);
              && t.node.parent == CtxParent(c) && t.node.left == RootOf(t.left) && t.node.right == RootOf(t.right)
              && Apart(Plug(c, u)) && Nodes(Plug(c, u)) == Nodes(Plug(c, t)) - {t.node}
              && (u.Bin? ==> u.node in Nodes(Plug(c, u)) && u.node != CtxParent(c))
              && (c.Top? ==> RootOf(Plug(c, u)) == RootOf(u))
              && (c.Hole? ==> RootOf(Plug(c, u)) == root && c.node in CtxNodes(c) && c.node in Nodes(Plug(c, u))
                              && c.node.Child(c.dir) == t.node && c.node.Child(c.dir.Opp()) != t.node)
    {
      Look(c, t, Left);
      ApartPlug(c, t);
      ApartPlug(c, OnlyChild(t));
      if c.Hole? {
        LookAside(c, t);
        RootAbove(c, t);
        PlugRoot(c, t, OnlyChild(t));
      }
    }

    /** Takes a node with at most one child out of the tree. */
    method Splice(redundant: Node, ghost c: Ctx, ghost t: Shape) returns (curchild: Node?)
      requires t.Bin? && t.node == redundant && (t.left.Leaf? || t.right.Leaf?)
      requires Has(root, Plug(c, t))
      modifies this`root, (Nodes(Plug(c, t)) - {redundant})`parent, CtxNodes(c)`left, CtxNodes(c)`right
      ensures var u := OnlyChild(t); Has(root, Plug(c, u)) && curchild == RootOf(u)
      ensures redundant !in Nodes(Plug(c, OnlyChild(t)))
    {
      ghost var u := OnlyChild(t);
      ghost var w, w' := Plug(c, t), Plug(c, u);
      SpliceFacts(c, t);
      assert allocated(Nodes(w));
      curchild := redundant.Child(if redundant.left != null then Left else Right);
      if curchild != null {
        curchild.parent := redundant.parent;
      }
      Relink(redundant.parent, redundant, curchild, Left, if c.Hole? then c.dir else Left);
      forall n | n in Nodes(w') ensures View(n) == RecordIn(w', null, n) {
        SpliceRecord(c, t, n);
      }
    }

    /** The item of the removed successor moves into the node that was to be removed. */
    method MoveCell(cur: Node, redundant: Node, ghost c: Ctx, ghost t: Shape)
      requires t.Bin? && t.left.Bin? && t.right.Bin? && cur == t.node
      requires var z := Excised(c, t, t.cell);
               Has(root, Plug(z.ctx, OnlyChild(z.tree))) && Cell(redundant.content, redundant.size) == z.tree.cell
      modifies cur`content, cur`size
      ensures var z := Excised(c, t, Excised(c, t, t.cell).tree.cell); Has(root, Plug(z.ctx, OnlyChild(z.tree)))
    {
      ghost var z := Excised(c, t, t.cell);
      ghost var z' := Excised(c, t, z.tree.cell);
      ghost var child := OnlyChild(z.tree);
      ExcisedFacts(c, t, z.tree.cell);
      ExciseInSteps(c, t, z.tree.cell);
      ghost var r :| Plug(z.ctx, child) == Plug(c, t.(right := r)) && Plug(z'.ctx, child) == Plug(c, t.(right := r, cell := z.tree.cell));
      SetCell(cur, redundant.content, redundant.size, c, t.(right := r));
    }

    /** The node to take out: the node itself, or its successor if it has two children. */
    method Redundant(cur: Node, ghost c: Ctx, ghost t: Shape) returns (redundant: Node)
      requires t.Bin? && cur == t.node && Has(root, Plug(c, t))
      ensures Has(root, Plug(c, t))
      ensures var z := Excised(c, t, t.cell);
              && redundant == z.tree.node && redundant in Nodes(Plug(c, t))
              && View(redundant) == Record(CtxParent(z.ctx), RootOf(z.tree.left), RootOf(z.tree.right), z.tree.red, z.tree.cell)
              && (redundant != cur <==> t.left.Bin? && t.right.Bin?)
    {
      assert allocated(Nodes(Plug(c, t)));
      redundant := cur;
      Look(c, t, Left);
      ApartPlug(c, t);
      if cur.left != null && cur.right != null {
        redundant := TreeSuccessor(cur, c, t);
        LeftMostBelow(Hole(Right, t.node, t.red, t.cell, t.left, c), t.right);
      }
      ExcisedFacts(c, t, t.cell);
      Look(Excised(c, t, t.cell).ctx, Excised(c, t, t.cell).tree, Left);
    }

    /** Takes out the node, or its successor after moving the successor's item into it. */
    method Excise(cur: Node, ghost c: Ctx, ghost t: Shape) returns (redundant: Node, curchild: Node?)
      requires t.Bin? && cur == t.node && Has(root, Plug(c, t))
      modifies this`root, Nodes(Plug(c, t))
      ensures var z := Excised(c, t, Excised(c, t, t.cell).tree.cell);
              && Has(root, Plug(z.ctx, OnlyChild(z.tree))) && curchild == RootOf(OnlyChild(z.tree))
              && redundant == z.tree.node && redundant.red == z.tree.red && redundant.parent == CtxParent(z.ctx)
    {
      ghost var z := Excised(c, t, t.cell);
      redundant := Redundant(cur, c, t);
      ExcisedFacts(c, t, z.tree.cell);
      SameParent(c, t, z.tree.cell);
      PlugNodes(z.ctx, z.tree);
      Look(c, t, Left);
      curchild := Splice(redundant, z.ctx, z.tree);
      if redundant != cur {
        MoveCell(cur, redundant, c, t);
      }
    }

    /** Repairs the tree if a black node has been taken out of it. */
    method RepairAfterRemove(redundant: Node, curchild: Node?, ghost c: Ctx, ghost t: Shape)
      requires t.Bin? && (t.left.Leaf? || t.right.Leaf?)
      requires redundant.red == t.red && redundant.parent == CtxParent(c)
      requires var u := OnlyChild(t);
               Has(root, Plug(c, u)) && curchild == RootOf(u) && Sorted(Cells(Plug(c, u)))
      modifies this`root, Nodes(Plug(c, OnlyChild(t)))
      ensures var u := OnlyChild(t);
              Has(root, if t.red || (u.Leaf? && c.Top?) then Plug(c, u) else AfterRemove(c, u))
    {
      ghost var u := OnlyChild(t);
      if !redundant.red {
        if curchild == null {
          if redundant.parent != null {
            assert allocated(Nodes(Plug(c, u)));
            ApartPlug(c, u);
            var temp := new Node(redundant.parent, NoContent, 0, false);
            TreeBalanceAfterRemove(temp, c, u);
          }
        } else {
          ApartPlug(c, u);
          TreeBalanceAfterRemove(curchild, c, u);
        }
      }
    }

    method TakeOut(cur: Node, ghost c: Ctx, ghost t: Shape)
      requires t.Bin? && cur == t.node && Has(root, Plug(c, t)) && Sorted(Cells(Plug(c, t)))
      modifies this`root, Nodes(Plug(c, t))
      ensures Has(root, Removed(c, t))
    {
      ghost var z := Excised(c, t, Excised(c, t, t.cell).tree.cell);
      ReadyToRepair(c, t);
      var redundant, curchild := Excise(cur, c, t);
      RepairAfterRemove(redundant, curchild, z.ctx, z.tree);
    }

    /** Removes a node's item from the tree. */
    method MQTTTreeRemoveNodeIndex(cur: Node) returns (content: Content)
      requires Ordered() && cur in Nodes(shape)
      modifies this`root, this`count, this`size, this`shape, Nodes(shape)
      ensures Ordered() && Nodes(shape) <= old(Nodes(shape)) && (old(Sound(shape)) ==> Sound(shape))
      ensures content == old(cur.content) && content.Content? && content.key in old(Contents())
      ensures old(Contents())[content.key] == old(Cell(cur.content, cur.size))
      ensures Contents() == old(Contents()) - {content.key}
    {
      ghost var f := Locate(Top, shape, cur);
      Look(f.ctx, f.tree, Left);
      RemovedFacts(f.ctx, f.tree);
      var size := cur.size;
      content := cur.content;
      TakeOut(cur, f.ctx, f.tree);
      shape := Removed(f.ctx, f.tree);
      this.size := this.size - size;
      count := count - 1;
    }

    method TreeFindIndex1(key: Content) returns (cur: Node?)
      requires Ordered() && key.Content?
      ensures cur == null <==> key.key !in Contents()
      ensures cur != null ==> cur in Nodes(shape) && Contents()[key.key] == Cell(cur.content, cur.size)
    {
      var above, left, result;
      cur, above, left, result := Search(key);
      SeekFinds(shape, key.key);
      if cur != null {
        ghost var z := Seek(Top, shape, key.key);
        Look(z.ctx, z.tree, Left);
      }
    }

    /** The first element when cur is null, else the one after cur. */
    method TreeNextElementIndex(cur: Node?) returns (next: Node?)
      requires Ordered() && (cur == null || cur in Nodes(shape))
      ensures cur == null ==> next == Head(Order(shape))
      ensures forall i :: 0 <= i < |Order(shape)| && cur == Order(shape)[i] ==> next == Head(Order(shape)[i + 1..])
    {
      if cur == null {
        next := TreeMinimum(root, Top, shape);
        if shape.Bin? { FirstIsHead(shape); }
      } else {
        ghost var z := Locate(Top, shape, cur);
        next := TreeSuccessor(cur, z.ctx, z.tree);
        NextIsHead(z.ctx, z.tree);
        OrderDistinct(shape);
        ghost var k := |OrderBefore(z.ctx) + Order(z.tree.left)|;
        assert Order(shape)[k] == cur && Order(shape)[k + 1..] == Order(z.tree.right) + OrderAfter(z.ctx);
      }
    }

    /** In order means each node once, by increasing key, and every item. */
    lemma WalkCovers()
      requires Ordered()
      ensures |Order(shape)| == count == |Contents()|
      ensures forall i :: 0 <= i < count ==> Order(shape)[i].content == Cells(shape)[i].content && Order(shape)[i].content.Content?
      ensures forall i, j :: 0 <= i < j < count ==>
                Order(shape)[i] != Order(shape)[j] && Order(shape)[i].content.key < Order(shape)[j].content.key
      ensures Elements(Order(shape)) == Nodes(shape)
    {
      OrderNodes(shape);
      OrderDistinct(shape);
      EntriesKeys(Cells(shape));
      forall i | 0 <= i < count ensures Order(shape)[i].content == Cells(shape)[i].content {
        OrderCells(shape, null, i);
        assert View(Order(shape)[i]).cell == Cells(shape)[i];
      }
    }

    /** The height is at most 2 * log2(count + 1). */
    lemma HeightBound()
      requires Valid()
      ensures Pow2(Height(shape)) <= (count + 1) * (count + 1)
    {
      HeightIsLogarithmic(shape);
    }

    method TreeRemoveIndex(content: Content) returns (rc: Content)
      requires Ordered() && content.Content?
      modifies this`root, this`count, this`size, this`shape, Nodes(shape)
      ensures Ordered() && Nodes(shape) <= old(Nodes(shape)) && (old(Sound(shape)) ==> Sound(shape))
      ensures rc == if content.key in old(Contents()) then old(Contents())[content.key].content else NoContent
      ensures Contents() == old(Contents()) - {content.key}
    {
      assert allocated(Nodes(shape));
      var cur := TreeFindIndex1(content);
      if cur == null {
        rc := NoContent;
      } else {
        SeekKey(content.key);
        rc := MQTTTreeRemoveNodeIndex(cur);
      }
    }

    lemma SeekKey(k: int)
      requires Ordered()
      ensures k in Contents() ==> Contents()[k].content.Content? && Contents()[k].content.key == k
    {
      SeekFinds(shape, k);
      SeekBounds(Top, shape, k);
    }
  }

  /** The context of the sibling of the focus. */
  ghost function SibCtx(c: Ctx, t: Shape): Ctx
    requires c.Hole?
  {
    Hole(c.dir.Opp(), c.node, c.red, c.cell, t, c.up)
  }

  /** MQTTTreeIntCompare and MQTTTreePtrCompare: the order of the keys, reversed. */
  function Compare(a: Content, b: Content): int
    requires a.Content? && b.Content?
  {
    if a.key > b.key then -1 else if a.key == b.key then 0 else 1
  }
}
