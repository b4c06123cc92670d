/**
 Rebalancing after an addition, and what an addition achieves.
 */
module TreeAdd {
  import opened TreeShapes
  import opened TreeRules
  import opened TreeContents

  // ----- rebalancing after an addition

  /** An inner grandchild lifted over its parent; the parent is the new focus. */
  ghost function LiftInner(c: Ctx, t: Shape): Zip
    requires t.Bin? && c.Hole? && c.up.Hole?
  {
    var d := c.up.dir;
    Zip(Hole(d, t.node, t.red, t.cell, Side(t, d.Opp()), c.up), Mk(d, c.node, c.red, c.cell, c.sib, Side(t, d)))
  }

  /** The parent, black, lifted over the grandparent, red. */
  ghost function LiftOuter(z: Zip): Zip
    requires z.ctx.Hole? && z.ctx.up.Hole?
  {
    var Hole(_, p, _, pc, s, Hole(d, g, _, gc, u, up)) := z.ctx;
    Zip(Hole(d, p, false, pc, Mk(d, g, true, gc, s, u), up), z.tree)
  }

  /** One round of the repair after an addition, at a focus that has a grandparent. */
  ghost function AddStep(c: Ctx, t: Shape): (z: Zip)
    requires t.Bin? && c.Hole? && c.up.Hole?
  {
    var Hole(d1, p, _, pc, s, Hole(d2, g, _, gc, u, up)) := c;
    if IsRed(u) then
      Zip(up, Mk(d2, g, true, gc, Mk(d1, p, false, pc, t, s), Paint(u, false)))
    else if d1 != d2 then
      LiftOuter(LiftInner(c, t))
    else
      LiftOuter(Zip(c, t))
  }

  ghost function Depth(c: Ctx): nat {
    if c.Top? then 0 else 1 + Depth(c.up)
  }

  lemma AddStepClimbs(c: Ctx, t: Shape)
    requires t.Bin? && c.Hole? && c.up.Hole?
    ensures Depth(AddStep(c, t).ctx) < Depth(c)
  {
    assert Depth(c) == Depth(c.up.up) + 2;
  }

  /** The tree after the whole repair that follows an addition. */
  ghost function AfterAdd(c: Ctx, t: Shape): Shape
    requires t.Bin?
    decreases Depth(c)
  {
    if ParentRed(c) && c.up.Hole? then
      var z := AddStep(c, t);
      AddStepClimbs(c, t);
      AfterAdd(z.ctx, z.tree)
    else Paint(Plug(c, t), false)
  }

  /** Turning the edge between x and y keeps the order. */
  lemma TurnCells(d: Dir, x: Node, xr: bool, xr': bool, xc: Cell, y: Node, yr: bool, yr': bool, yc: Cell,
                  a: Shape, b: Shape, c: Shape)
    ensures var u := Mk(d, x, xr, xc, a, Mk(d, y, yr, yc, b, c));
            var v := Mk(d, y, yr', yc, Mk(d, x, xr', xc, a, b), c);
            Cells(u) == Cells(v) && Nodes(u) == Nodes(v)
  {
    if d.Left? {
      Rejoin(Cells(a), [xc], Cells(b), [yc], Cells(c));
      TurnNodes(x, y, Nodes(a), Nodes(b), Nodes(c));
    } else {
      Rejoin(Cells(c), [yc], Cells(b), [xc], Cells(a));
      TurnNodes(x, y, Nodes(a), Nodes(b), Nodes(c));
    }
  }

  lemma Rejoin(a: seq<Cell>, x: seq<Cell>, b: seq<Cell>, y: seq<Cell>, c: seq<Cell>)
    ensures a + x + (b + y + c) == (a + x + b) + y + c
  {
  }

  lemma TurnNodes(x: Node, y: Node, a: set<Node>, b: set<Node>, c: set<Node>)
    ensures {x} + a + ({y} + b + c) == {y} + ({x} + a + b) + c == {y} + c + ({x} + b + a) == {x} + ({y} + c + b) + a
  {
  }

  lemma SamePlug(c: Ctx, t: Shape, u: Shape)
    requires Cells(t) == Cells(u) && Nodes(t) == Nodes(u)
    ensures Cells(Plug(c, t)) == Cells(Plug(c, u)) && Nodes(Plug(c, t)) == Nodes(Plug(c, u))
  {
    PlugCells(c, t); PlugCells(c, u);
    PlugNodes(c, t); PlugNodes(c, u);
  }

  lemma SameMk(d: Dir, n: Node, red: bool, red': bool, cell: Cell, a: Shape, a': Shape, b: Shape, b': Shape)
    requires Cells(a) == Cells(a') && Nodes(a) == Nodes(a')
    requires Cells(b) == Cells(b') && Nodes(b) == Nodes(b')
    ensures var t, u := Mk(d, n, red, cell, a, b), Mk(d, n, red', cell, a', b'); Cells(t) == Cells(u) && Nodes(t) == Nodes(u)
  {
  }

  lemma AddStepCells(c: Ctx, t: Shape)
    requires t.Bin? && c.Hole? && c.up.Hole?
    ensures var z := AddStep(c, t); Cells(Whole(z)) == Cells(Plug(c, t)) && Nodes(Whole(z)) == Nodes(Plug(c, t))
  {
    var Hole(d1, p, pred, pc, s, Hole(d2, g, gred, gc, u, up)) := c;
    var old_p := Mk(d1, p, pred, pc, t, s);
    var old_g := Mk(d2, g, gred, gc, old_p, u);
    if IsRed(u) {
      var new_p := Mk(d1, p, false, pc, t, s);
      SameMk(d1, p, pred, false, pc, t, t, s, s);
      SameMk(d2, g, gred, true, gc, old_p, new_p, u, Paint(u, false));
      SamePlug(up, old_g, Mk(d2, g, true, gc, new_p, Paint(u, false)));
    } else if d1 != d2 {
      var x, y := Side(t, d1), Side(t, d2);
      var turned := Mk(d2, t.node, t.red, t.cell, Mk(d2, p, pred, pc, s, y), x);
      TurnCells(d2, p, pred, pred, pc, t.node, t.red, t.red, t.cell, s, y, x);
      SameMk(d2, g, gred, gred, gc, old_p, turned, u, u);
      TurnCells(d1, g, gred, true, gc, t.node, t.red, false, t.cell, u, x, Mk(d2, p, pred, pc, s, y));
      SamePlug(up, old_g, Mk(d2, t.node, false, t.cell, Mk(d2, p, pred, pc, s, y), Mk(d2, g, true, gc, x, u)));
    } else {
      TurnCells(d2.Opp(), g, gred, true, gc, p, pred, false, pc, u, s, t);
      SamePlug(up, old_g, Mk(d2, p, false, pc, t, Mk(d2, g, true, gc, s, u)));
    }
  }

  /** The only rule broken is that the red focus may have a red parent. */
  ghost predicate RedPending(c: Ctx, t: Shape) {
    && RedBlack(t) && IsRed(t)
    && match c
       case Top => true
       case Hole(_, _, pred, _, sib, up) =>
         && RedBlack(sib)
         && BlackHeight(sib) == BlackHeight(t)
         && (pred ==> !IsRed(sib))
         && Fits(up, BlackHeight(t) + if pred then 0 else 1, pred)
  }

  ghost predicate ParentRed(c: Ctx) {
    c.Hole? && c.red
  }

  lemma RaiseRedPending(c: Ctx, t: Shape)
    requires t.Bin? && ParentRed(c) && c.up.Hole? && IsRed(c.up.sib)
    requires RedBlack(t) && RedBlack(c.sib) && BlackHeight(c.sib) == BlackHeight(t) && Fits(c.up, BlackHeight(t), true)
    ensures var z := AddStep(c, t); RedPending(z.ctx, z.tree)
  {
    var g := c.up;
    assert !g.red && RedBlack(g.sib) && BlackHeight(g.sib) == BlackHeight(t) && Fits(g.up, BlackHeight(t) + 1, false);
    var p := Mk(c.dir, c.node, false, c.cell, t, c.sib);
    assert RedBlack(p) && BlackHeight(p) == BlackHeight(t) + 1;
    assert RedBlack(Paint(g.sib, false)) && BlackHeight(Paint(g.sib, false)) == BlackHeight(t) + 1;
  }

  lemma AddStepSound(c: Ctx, t: Shape)
    requires t.Bin? && c.Hole? && c.up.Hole? && ParentRed(c)
    requires RedPending(c, t)
    ensures var z := AddStep(c, t);
            if IsRed(c.up.sib) then RedPending(z.ctx, z.tree) else !ParentRed(z.ctx) && Sound(Whole(z))
  {
    var z := AddStep(c, t);
    var Hole(d1, p, pred, pc, s, Hole(d2, g, gred, gc, u, up)) := c;
    assert !gred && RedBlack(u) && BlackHeight(u) == BlackHeight(t) && Fits(up, BlackHeight(t) + 1, false);
    if IsRed(u) {
      RaiseRedPending(c, t);
    } else {
      assert RedBlack(z.ctx.sib) && BlackHeight(z.ctx.sib) == BlackHeight(t);
      assert RedBlack(z.tree) && BlackHeight(z.tree) == BlackHeight(t);
      PlugSound(z.ctx, z.tree);
    }
  }

  lemma RedPendingAtRest(c: Ctx, t: Shape)
    requires RedPending(c, t)
    requires !(ParentRed(c) && c.up.Hole?)
    ensures Sound(Paint(Plug(c, t), false))
  {
    PlugSound(c, t);
    if c.Hole? {
      SoundPaint(Plug(c, t));
    }
  }

  lemma SoundPaint(t: Shape)
    requires Sound(t)
    ensures Paint(t, false) == t
  {
  }

  // ----- what an addition achieves

  lemma {:induction false} AfterAddCells(c: Ctx, t: Shape)
    requires t.Bin?
    ensures Cells(AfterAdd(c, t)) == Cells(Plug(c, t)) && Nodes(AfterAdd(c, t)) == Nodes(Plug(c, t))
    decreases Depth(c)
  {
    if ParentRed(c) && c.up.Hole? {
      AddStepCells(c, t);
      AddStepClimbs(c, t);
      var z := AddStep(c, t);
      AfterAddCells(z.ctx, z.tree);
    }
  }

  lemma {:induction false} AfterAddSound(c: Ctx, t: Shape)
    requires RedPending(c, t)
    ensures Sound(AfterAdd(c, t))
    decreases Depth(c)
  {
    if ParentRed(c) && c.up.Hole? {
      AddStepSound(c, t);
      AddStepClimbs(c, t);
      var z := AddStep(c, t);
      if IsRed(c.up.sib) {
        AfterAddSound(z.ctx, z.tree);
      } else {
        SoundPaint(Whole(z));
      }
    } else {
      RedPendingAtRest(c, t);
    }
  }

  /** Repairing at a black inner grandchild with a red parent and a black uncle: the one case that goes wrong. */
  ghost predicate BlackInner(c: Ctx, t: Shape) {
    t.Bin? && !t.red && ParentRed(c) && c.up.Hole? && !IsRed(c.up.sib) && c.dir != c.up.dir
  }

  /** The repair started at a node that was there already keeps the rules exactly when it is not at a BlackInner node. */
  lemma RepairInPlace(c: Ctx, t: Shape)
    requires t.Bin? && Sound(Plug(c, t))
    ensures Sound(AfterAdd(c, t)) <==> !BlackInner(c, t)
  {
    PlugSound(c, t);
    if !ParentRed(c) {
      SoundPaint(Plug(c, t));
    } else {
      var z := AddStep(c, t);
      if IsRed(c.up.sib) {
        RaiseRedPending(c, t);
        AfterAddSound(z.ctx, z.tree);
      } else {
        RepairOnce(c, t);
        PlugSound(z.ctx, z.tree);
        if c.dir == c.up.dir {
          assert RedBlack(z.ctx.sib);
          assert Fits(z.ctx, BlackHeight(t), false);
        } else {
          assert !RedBlack(z.tree);
        }
      }
    }
  }

  /** With a red parent and a black uncle the repair ends after one round. */
  lemma RepairOnce(c: Ctx, t: Shape)
    requires t.Bin? && Sound(Plug(c, t)) && ParentRed(c) && c.up.Hole? && !IsRed(c.up.sib)
    ensures AfterAdd(c, t) == Whole(AddStep(c, t))
  {
    var z := AddStep(c, t);
    PlugSound(c, t);
    if c.up.up.Hole? {
      RootStaysBlack(c.up.up, Mk(z.ctx.dir, z.ctx.node, false, z.ctx.cell, z.tree, z.ctx.sib), BlackHeight(t) + 1, false);
    }
    assert !IsRed(Plug(z.ctx.up, Mk(z.ctx.dir, z.ctx.node, false, z.ctx.cell, z.tree, z.ctx.sib)));
    assert !ParentRed(z.ctx) && AfterAdd(z.ctx, z.tree) == Paint(Whole(z), false);
  }

  lemma {:induction false} RootStaysBlack(c: Ctx, t: Shape, h: nat, r: bool)
    requires c.Hole? && Fits(c, h, r)
    ensures !IsRed(Plug(c, t))
  {
    if c.up.Hole? {
      RootStaysBlack(c.up, Mk(c.dir, c.node, c.red, c.cell, t, c.sib), h + if c.red then 0 else 1, c.red);
    }
  }

  /** The size of one cell is part of the total. */
  lemma CellAt(w: Shape, c: Ctx, t: Shape)
    requires t.Bin? && w == Plug(c, t)
    ensures t.cell.size <= TotalSize(Cells(w))
  {
    CellsAround(c, t);
    EntriesJoin(Before(c) + Cells(t.left), [t.cell]);
    EntriesJoin(Before(c) + Cells(t.left) + [t.cell], Cells(t.right) + After(c));
  }

  /** The tree after an addition; n is the node that carries the cell if the key is new. */
  ghost function Added(w: Shape, cell: Cell, n: Node): Shape
    requires cell.content.Content?
  {
    var z := Seek(Top, w, cell.content.key);
    AfterAdd(z.ctx, if z.tree.Leaf? then Bin(n, true, cell, Leaf, Leaf) else z.tree.(cell := cell))
  }

  lemma AddedNewSound(w: Shape, cell: Cell, n: Node)
    requires cell.content.Content? && Sound(w) && Seek(Top, w, cell.content.key).tree.Leaf?
    ensures Sound(Added(w, cell, n))
  {
    var z := Seek(Top, w, cell.content.key);
    PlugSound(z.ctx, Leaf);
    AfterAddSound(z.ctx, Bin(n, true, cell, Leaf, Leaf));
  }

  lemma AddedNew(w: Shape, cell: Cell, n: Node)
    requires cell.content.Content? && Sorted(Cells(w)) && Seek(Top, w, cell.content.key).tree.Leaf?
    ensures Sound(w) ==> Sound(Added(w, cell, n))
    ensures var k, w' := cell.content.key, Added(w, cell, n);
            && k !in Entries(Cells(w))
            && Sorted(Cells(w')) && Nodes(w') == Nodes(w) + {n}
            && Entries(Cells(w')) == Entries(Cells(w))[k := cell]
            && |Cells(w')| == |Cells(w)| + 1 && TotalSize(Cells(w')) == TotalSize(Cells(w)) + cell.size
  {
    var z := Seek(Top, w, cell.content.key);
    var leaf := Bin(n, true, cell, Leaf, Leaf);
    if Sound(w) { AddedNewSound(w, cell, n); }
    SeekBounds(Top, w, cell.content.key);
    AfterAddCells(z.ctx, leaf);
    PlugNodes(z.ctx, leaf);
    PlugNodes(z.ctx, Leaf);
    LeafCells(z.ctx, leaf);
    CellThere(Before(z.ctx), cell, After(z.ctx));
  }

  lemma LeafCells(c: Ctx, leaf: Shape)
    requires leaf.Bin? && leaf.left.Leaf? && leaf.right.Leaf?
    ensures Cells(Plug(c, Leaf)) == Before(c) + After(c)
    ensures Cells(Plug(c, leaf)) == Before(c) + [leaf.cell] + After(c)
  {
    PlugCells(c, Leaf);
    PlugCells(c, leaf);
    assert Cells(leaf) == [leaf.cell];
  }

  lemma CellThere(a: seq<Cell>, x: Cell, b: seq<Cell>)
    requires x.content.Content? && Sorted(a + b) && AllBelow(a, x.content.key) && AllAbove(b, x.content.key)
    ensures var s, s' := a + b, a + [x] + b;
            && Sorted(s') && x.content.key !in Entries(s) && Entries(s') == Entries(s)[x.content.key := x]
            && |s'| == |s| + 1 && TotalSize(s') == TotalSize(s) + x.size
  {
    SortedInsert(a, x, b);
    EntriesAround(a, x, b);
  }

  lemma AddedOver(w: Shape, cell: Cell, n: Node)
    requires cell.content.Content? && Sorted(Cells(w)) && Seek(Top, w, cell.content.key).tree.Bin?
    ensures var k, z, w' := cell.content.key, Seek(Top, w, cell.content.key), Added(w, cell, n);
            && k in Entries(Cells(w)) && Entries(Cells(w))[k] == z.tree.cell
            && (Sound(w) ==> (Sound(w') <==> !BlackInner(z.ctx, z.tree)))
            && Sorted(Cells(w')) && Nodes(w') == Nodes(w)
            && Entries(Cells(w')) == Entries(Cells(w))[k := cell]
            && |Cells(w')| == |Cells(w)|
            && TotalSize(Cells(w')) == TotalSize(Cells(w)) - z.tree.cell.size + cell.size
  {
    var k := cell.content.key;
    var z := Seek(Top, w, k);
    var x := z.tree.(cell := cell);
    SeekBounds(Top, w, k);
    SameRules(z.ctx, z.tree, x);
    if Sound(w) { RepairInPlace(z.ctx, x); }
    AfterAddCells(z.ctx, x);
    PlugNodes(z.ctx, x); PlugNodes(z.ctx, z.tree);
    CellsAround(z.ctx, x);
    CellsAround(z.ctx, z.tree);
    SwapCell(Before(z.ctx) + Cells(z.tree.left), z.tree.cell, cell, Cells(z.tree.right) + After(z.ctx));
  }

  /**
   There is such a node in a sound tree of five: the root 40 is black, its left child 20 is red with the black
   children 10 and 30, its right child 50 is black. Adding 30 again breaks the rules.
   */
  lemma ReplacingCanBreakTheRules(n10: Node, n20: Node, n30: Node, n40: Node, n50: Node, size: nat)
    ensures var w := Five(n10, n20, n30, n40, n50);
            Sound(w) && Sorted(Cells(w)) && !Sound(Added(w, Cell(Content(30, 1), size), n30))
  {
    var w := Five(n10, n20, n30, n40, n50);
    var a, b := Bin(n10, false, Ten(1), Leaf, Leaf), Bin(n30, false, Ten(3), Leaf, Leaf);
    var left, right := Bin(n20, true, Ten(2), a, b), Bin(n50, false, Ten(5), Leaf, Leaf);
    assert Cells(Leaf) == [];
    assert Cells(a) == [] + [Ten(1)] + [];
    assert Cells(b) == [] + [Ten(3)] + [];
    assert Cells(right) == [] + [Ten(5)] + [];
    assert Cells(left) == [Ten(1), Ten(2), Ten(3)];
    assert Cells(w) == [Ten(1), Ten(2), Ten(3), Ten(4), Ten(5)];
    assert RedBlack(a) && RedBlack(b) && RedBlack(right);
    assert RedBlack(left);
    var c := Hole(Left, n40, false, Ten(4), right, Top);
    var z := Zip(Hole(Right, n20, true, Ten(2), a, c), b);
    assert Seek(z.ctx, b, 30) == z;
    assert Seek(c, left, 30) == z;
    assert Seek(Top, w, 30) == z;
    AddedOver(w, Cell(Content(30, 1), size), n30);
  }

  function Ten(i: int): Cell {
    Cell(Content(10 * i, 0), 0)
  }

  function Five(n10: Node, n20: Node, n30: Node, n40: Node, n50: Node): Shape {
    Bin(n40, false, Ten(4),
        Bin(n20, true, Ten(2), Bin(n10, false, Ten(1), Leaf, Leaf), Bin(n30, false, Ten(3), Leaf, Leaf)),
        Bin(n50, false, Ten(5), Leaf, Leaf))
  }

  /** Order, contents and totals after an addition to any ordered tree, and when the rules survive it. */
  lemma AddedFacts(w: Shape, cell: Cell, n: Node)
    requires cell.content.Content? && Sorted(Cells(w))
    ensures var k, z, w' := cell.content.key, Seek(Top, w, cell.content.key), Added(w, cell, n);
            && (k in Entries(Cells(w)) <==> z.tree.Bin?)
            && (Sound(w) ==> (Sound(w') <==> !BlackInner(z.ctx, z.tree)))
            && Sorted(Cells(w')) && Nodes(w') == Nodes(w) + (if z.tree.Leaf? then {n} else {})
            && Entries(Cells(w')) == Entries(Cells(w))[k := cell]
            && |Cells(w')| == |Cells(w)| + (if z.tree.Leaf? then 1 else 0)
            && TotalSize(Cells(w')) == TotalSize(Cells(w)) + cell.size - if z.tree.Leaf? then 0 else z.tree.cell.size
  {
    if Seek(Top, w, cell.content.key).tree.Leaf? {
      AddedNew(w, cell, n);
    } else {
      AddedOver(w, cell, n);
    }
  }

  lemma SwapCell(a: seq<Cell>, x: Cell, y: Cell, b: seq<Cell>)
    requires Sorted(a + [x] + b) && y.content.Content? && x.content.Content? && y.content.key == x.content.key
    ensures var s, s', k := a + [x] + b, a + [y] + b, x.content.key;
            && Sorted(s') && k in Entries(s) && Entries(s)[k] == x && Entries(s') == Entries(s)[k := y]
            && |s'| == |s| && TotalSize(s') == TotalSize(s) - x.size + y.size
  {
    SortedAround(a, x, b);
    SortedInsert(a, y, b);
    EntriesAround(a, x, b);
    EntriesAround(a, y, b);
  }

  lemma SameRules(c: Ctx, t: Shape, u: Shape)
    requires t.Bin? && u.Bin? && t.red == u.red && t.left == u.left && t.right == u.right
    ensures Sound(Plug(c, t)) <==> Sound(Plug(c, u))
  {
    PlugSound(c, t);
    PlugSound(c, u);
  }
}
