/**
 Rebalancing after a removal, and what a removal achieves.
 */
module TreeRemove {
  import opened TreeShapes
  import opened TreeRules
  import opened TreeContents
  import opened TreeAdd

  // ----- rebalancing after a removal

  /** The red sibling turned black and lifted over the parent: the new context of the same focus. */
  ghost function LiftRed(c: Ctx): Ctx
    requires c.Hole?
  {
    if IsRed(c.sib) then
      var s := c.sib;
      Hole(c.dir, c.node, true, c.cell, Side(s, c.dir),
           Hole(c.dir, s.node, false, s.cell, Side(s, c.dir.Opp()), c.up))
    else c
  }

  /** The sibling with a red child on its far side. */
  ghost function FarRed(d: Dir, s: Shape): Shape
    requires s.Bin?
    ensures FarRed(d, s).Bin?
  {
    var near := Side(s, d);
    if !IsRed(Side(s, d.Opp())) && near.Bin? then
      Mk(d, near.node, false, near.cell, Side(near, d),
         Mk(d, s.node, true, s.cell, Side(near, d.Opp()), Side(s, d.Opp())))
    else s
  }

  /** One round of the repair after a removal, with a black sibling or none. */
  ghost function RestStep(c: Ctx, t: Shape): (z: Zip)
    requires c.Hole?
  {
    var Hole(d, p, pred, pc, s, up) := c;
    if s.Leaf? then Zip(up, Mk(d, p, pred, pc, t, s))
    else if !IsRed(s.left) && !IsRed(s.right) then Zip(up, Mk(d, p, pred, pc, t, Paint(s, true)))
    else Zip(Top, Plug(up, Spread(d, p, pred, pc, t, FarRed(d, s))))
  }

  /** One round of the repair after a removal; a Top context means the loop has reached the root. */
  ghost function RemoveStep(c: Ctx, t: Shape): (z: Zip)
    requires c.Hole?
  {
    RestStep(LiftRed(c), t)
  }

  /** The focus is one black vertex short of what its context needs. */
  ghost predicate Deficit(c: Ctx, t: Shape) {
    RedBlack(Paint(t, false)) && Fits(c, BlackHeight(t) + 1, false)
  }

  lemma DeficitRepaid(c: Ctx, t: Shape)
    requires Deficit(c, t)
    requires c.Top? || IsRed(t)
    ensures Sound(Plug(c, Paint(t, false)))
  {
    PlugSound(c, Paint(t, false));
  }

  ghost function RemoveMeasure(c: Ctx, t: Shape): nat {
    if c.Top? || IsRed(t) then 0 else 1 + Depth(c)
  }

  /** The parent, and below it the sibling's far child, with the sibling on top. */
  ghost function Spread(d: Dir, p: Node, pred: bool, pc: Cell, t: Shape, s: Shape): Shape
    requires s.Bin?
  {
    Mk(d, s.node, pred, s.cell, Mk(d, p, false, pc, t, Side(s, d)), Paint(Side(s, d.Opp()), false))
  }

  lemma RemoveStepSound(c: Ctx, t: Shape)
    requires c.Hole? && !IsRed(t) && Deficit(c, t)
    ensures var z := RemoveStep(c, t);
            Deficit(z.ctx, z.tree) && RemoveMeasure(z.ctx, z.tree) < RemoveMeasure(c, t) && z.tree.Bin?
  {
    LiftRedFits(c, BlackHeight(t) + 1);
    var Hole(d, p, pred, pc, s, up) := LiftRed(c);
    if IsRed(s.left) || IsRed(s.right) {
      FarRedRules(d, s);
      var m := Spread(d, p, pred, pc, t, FarRed(d, s));
      SpreadRules(d, p, pred, pc, t, FarRed(d, s));
      PlugSound(up, m);
      PlugBin(up, m);
    }
  }

  lemma SpreadRules(d: Dir, p: Node, pred: bool, pc: Cell, t: Shape, s: Shape)
    requires s.Bin? && RedBlack(t) && RedBlack(Side(s, d)) && BlackHeight(Side(s, d)) == BlackHeight(t)
    requires var far := Paint(Side(s, d.Opp()), false); RedBlack(far) && BlackHeight(far) == BlackHeight(t) + 1
    ensures var m := Spread(d, p, pred, pc, t, s);
            RedBlack(m) && IsRed(m) == pred && BlackHeight(m) == BlackHeight(t) + 1 + if pred then 0 else 1
  {
  }

  lemma LiftRedFits(c: Ctx, h: nat)
    requires c.Hole? && Fits(c, h, false) && h > 0
    ensures var c' := LiftRed(c); c'.Hole? && Fits(c', h, false) && c'.sib.Bin? && !IsRed(c'.sib)
    ensures var c' := LiftRed(c); c' == c || (c'.red && Depth(c') == Depth(c) + 1)
  {
  }

  lemma FarRedRules(d: Dir, s: Shape)
    requires s.Bin? && !s.red && RedBlack(s)
    requires IsRed(s.left) || IsRed(s.right)
    ensures var s' := FarRed(d, s);
            && s'.Bin? && RedBlack(Side(s', d)) && BlackHeight(Side(s', d)) == BlackHeight(s) - 1
            && IsRed(Side(s', d.Opp())) && RedBlack(Paint(Side(s', d.Opp()), false))
            && BlackHeight(Paint(Side(s', d.Opp()), false)) == BlackHeight(s)
  {
  }

  lemma {:induction false} PlugBin(c: Ctx, t: Shape)
    requires t.Bin? || c.Hole?
    ensures Plug(c, t).Bin?
  {
    if c.Hole? {
      PlugBin(c.up, Mk(c.dir, c.node, c.red, c.cell, t, c.sib));
    }
  }

  lemma RemoveStepCells(c: Ctx, t: Shape)
    requires c.Hole?
    ensures var z := RemoveStep(c, t); Cells(Whole(z)) == Cells(Plug(c, t)) && Nodes(Whole(z)) == Nodes(Plug(c, t))
  {
    LiftRedCells(c, t);
    var Hole(d, p, pred, pc, s, up) := LiftRed(c);
    if s.Bin? {
      var w := Mk(d, p, pred, pc, t, s);
      if IsRed(s.left) || IsRed(s.right) {
        SpreadCells(d, p, pred, pc, t, s);
        SamePlug(up, w, Spread(d, p, pred, pc, t, FarRed(d, s)));
      } else {
        SameMk(d, p, pred, pred, pc, t, t, s, Paint(s, true));
        SamePlug(up, w, Mk(d, p, pred, pc, t, Paint(s, true)));
      }
    }
  }

  lemma LiftRedCells(c: Ctx, t: Shape)
    requires c.Hole?
    ensures Cells(Plug(LiftRed(c), t)) == Cells(Plug(c, t)) && Nodes(Plug(LiftRed(c), t)) == Nodes(Plug(c, t))
  {
    if IsRed(c.sib) {
      var d, s := c.dir, c.sib;
      var near, far := Side(s, d), Side(s, d.Opp());
      TurnCells(d, c.node, c.red, true, c.cell, s.node, s.red, false, s.cell, t, near, far);
      SamePlug(c.up, Mk(d, c.node, c.red, c.cell, t, s),
               Mk(d, s.node, false, s.cell, Mk(d, c.node, true, c.cell, t, near), far));
    }
  }

  lemma SpreadCells(d: Dir, p: Node, pred: bool, pc: Cell, t: Shape, s: Shape)
    requires s.Bin?
    ensures var w := Mk(d, p, pred, pc, t, s); var m := Spread(d, p, pred, pc, t, FarRed(d, s));
            Cells(w) == Cells(m) && Nodes(w) == Nodes(m)
  {
    FarRedCells(d, s);
    var s' := FarRed(d, s);
    var near, far := Side(s', d), Side(s', d.Opp());
    SameMk(d, p, pred, pred, pc, t, t, s, s');
    TurnCells(d, p, pred, false, pc, s'.node, s'.red, pred, s'.cell, t, near, far);
    SameMk(d, s'.node, pred, pred, s'.cell, Mk(d, p, false, pc, t, near), Mk(d, p, false, pc, t, near), far, Paint(far, false));
  }

  lemma FarRedCells(d: Dir, s: Shape)
    requires s.Bin?
    ensures Cells(FarRed(d, s)) == Cells(s) && Nodes(FarRed(d, s)) == Nodes(s)
  {
    var near, far := Side(s, d), Side(s, d.Opp());
    if near.Bin? {
      TurnCells(d.Opp(), s.node, s.red, true, s.cell, near.node, near.red, false, near.cell,
                far, Side(near, d.Opp()), Side(near, d));
    }
  }

  lemma RemoveStepClimbs(c: Ctx, t: Shape)
    requires c.Hole? && !IsRed(t)
    ensures var z := RemoveStep(c, t); z.tree.Bin? && RemoveMeasure(z.ctx, z.tree) < RemoveMeasure(c, t)
  {
    var Hole(d, p, pred, pc, s, up) := LiftRed(c);
    assert LiftRed(c) == c || pred;
    if s.Bin? && (IsRed(s.left) || IsRed(s.right)) {
      PlugBin(up, Spread(d, p, pred, pc, t, FarRed(d, s)));
    }
  }

  /** Where neither child is there, the sides cannot be told apart, and it makes no difference. */
  lemma EitherSide(c: Ctx)
    requires c.Hole? && c.sib.Leaf?
    ensures var c' := c.(dir := Left);
            && Plug(c', Leaf) == Plug(c, Leaf) && RemoveStep(c', Leaf) == RemoveStep(c, Leaf) && CtxNodes(c') == CtxNodes(c)
  {
  }

  /** The tree after the whole repair that follows a removal. */
  ghost function AfterRemove(c: Ctx, t: Shape): Shape
    decreases RemoveMeasure(c, t)
  {
    if c.Hole? && !IsRed(t) then
      var z := RemoveStep(c, t);
      RemoveStepClimbs(c, t);
      AfterRemove(z.ctx, z.tree)
    else Plug(c, Paint(t, false))
  }

  lemma {:induction false} AfterRemoveSound(c: Ctx, t: Shape)
    requires Deficit(c, t)
    ensures Sound(AfterRemove(c, t))
    decreases RemoveMeasure(c, t)
  {
    if c.Hole? && !IsRed(t) {
      var z := RemoveStep(c, t);
      RemoveStepSound(c, t);
      AfterRemoveSound(z.ctx, z.tree);
    } else {
      DeficitRepaid(c, t);
    }
  }

  lemma {:induction false} AfterRemoveCells(c: Ctx, t: Shape)
    ensures Cells(AfterRemove(c, t)) == Cells(Plug(c, t)) && Nodes(AfterRemove(c, t)) == Nodes(Plug(c, t))
    decreases RemoveMeasure(c, t)
  {
    if c.Hole? && !IsRed(t) {
      var z := RemoveStep(c, t);
      RemoveStepCells(c, t);
      RemoveStepClimbs(c, t);
      AfterRemoveCells(z.ctx, z.tree);
    } else {
      SamePlug(c, t, Paint(t, false));
    }
  }

  // ----- removal

  /** Context a inside context b. */
  ghost function Within(a: Ctx, b: Ctx): Ctx {
    if a.Top? then b else a.(up := Within(a.up, b))
  }

  lemma {:induction false} PlugWithin(a: Ctx, b: Ctx, t: Shape)
    ensures Plug(Within(a, b), t) == Plug(b, Plug(a, t))
  {
    if a.Hole? {
      PlugWithin(a.up, b, Mk(a.dir, a.node, a.red, a.cell, t, a.sib));
    }
  }

  /** The leftmost vertex below a focus. */
  ghost function LeftMost(c: Ctx, t: Shape): (z: Zip)
    requires t.Bin?
    ensures z.tree.Bin?
    decreases t
  {
    if t.left.Leaf? then Zip(c, t)
    else LeftMost(Hole(Left, t.node, t.red, t.cell, t.right, c), t.left)
  }

  lemma {:induction false} LeftMostWithin(a: Ctx, b: Ctx, t: Shape)
    requires t.Bin?
    ensures var z, z' := LeftMost(a, t), LeftMost(Within(a, b), t); z' == Zip(Within(z.ctx, b), z.tree)
    decreases t
  {
    if t.left.Bin? {
      LeftMostWithin(Hole(Left, t.node, t.red, t.cell, t.right, a), b, t.left);
    }
  }

  lemma {:induction false} LeftMostFacts(c: Ctx, t: Shape)
    requires t.Bin?
    ensures var z := LeftMost(c, t);
            && z.tree.Bin? && z.tree.left.Leaf? && Whole(z) == Plug(c, t) && Before(z.ctx) == Before(c)
            && (z.ctx == c || (z.ctx.Hole? && z.ctx.dir.Left?))
    decreases t
  {
    if t.left.Bin? {
      LeftMostFacts(Hole(Left, t.node, t.red, t.cell, t.right, c), t.left);
    }
  }

  /** The only child of a vertex that has at most one. */
  ghost function OnlyChild(t: Shape): Shape
    requires t.Bin?
  {
    if t.left.Bin? then t.left else t.right
  }

  /** Where a vertex is really taken out: at the vertex itself, or at its successor if it has two children.
      `cell` is what the emptied vertex holds from then on, if that is the case. */
  ghost function Excised(c: Ctx, t: Shape, cell: Cell): (z: Zip)
    requires t.Bin?
    ensures z.tree.Bin?
  {
    if t.left.Bin? && t.right.Bin? then LeftMost(Hole(Right, t.node, t.red, cell, t.left, c), t.right)
    else Zip(c, t)
  }

  /** The tree after the root of the focus has been removed. */
  ghost function Removed(c: Ctx, t: Shape): Shape
    requires t.Bin?
  {
    var z := Excised(c, t, Excised(c, t, t.cell).tree.cell);
    var child := OnlyChild(z.tree);
    if z.tree.red || (child.Leaf? && z.ctx.Top?) then Plug(z.ctx, child) else AfterRemove(z.ctx, child)
  }

  /** What is taken out does not depend on the cell that is moved, and has at most one child. */
  lemma ExcisedFacts(c: Ctx, t: Shape, cell: Cell)
    requires t.Bin?
    ensures var z, z' := Excised(c, t, t.cell), Excised(c, t, cell);
            && z'.tree == z.tree && (z.tree.left.Leaf? || z.tree.right.Leaf?)
            && Whole(z) == Plug(c, t)
            && (if t.left.Bin? && t.right.Bin? then Whole(z') == Plug(c, t.(cell := cell)) else z' == z)
  {
    if t.left.Bin? && t.right.Bin? {
      var h, h' := Hole(Right, t.node, t.red, t.cell, t.left, c), Hole(Right, t.node, t.red, cell, t.left, c);
      LeftMostWithin(Top, h, t.right);
      LeftMostWithin(Top, h', t.right);
      LeftMostFacts(h, t.right);
      LeftMostFacts(h', t.right);
      assert Plug(h, t.right) == Plug(c, t);
    }
  }

  lemma RemovedCells(c: Ctx, t: Shape)
    requires t.Bin?
    ensures Cells(Removed(c, t)) == (Before(c) + Cells(t.left)) + (Cells(t.right) + After(c))
  {
    var cell := Excised(c, t, t.cell).tree.cell;
    var z := Excised(c, t, cell);
    var child := OnlyChild(z.tree);
    ExcisedFacts(c, t, cell);
    AfterRemoveCells(z.ctx, child);
    PlugCells(z.ctx, child);
    var a, l, r, b := Before(c), Cells(t.left), Cells(t.right), After(c);
    if t.left.Bin? && t.right.Bin? {
      ExcisedCells(c, t, cell);
      LeftMostFacts(Hole(Right, t.node, t.red, cell, t.left, c), t.right);
      Bracket(a + l, [cell], Cells(child), After(z.ctx));
    } else if t.left.Bin? {
      assert r + b == b;
    } else {
      assert a + l == a;
      Bracket(a, r, [], b);
    }
  }

  lemma Bracket(a: seq<Cell>, x: seq<Cell>, y: seq<Cell>, b: seq<Cell>)
    ensures a + x + y + b == a + (x + y + b)
    ensures y == [] ==> a + x + b == a + (x + b)
  {
  }

  lemma RemovedNodes(c: Ctx, t: Shape)
    requires t.Bin?
    ensures Nodes(Removed(c, t)) + {Excised(c, t, t.cell).tree.node} == Nodes(Plug(c, t))
  {
    var cell := Excised(c, t, t.cell).tree.cell;
    var z := Excised(c, t, cell);
    var child := OnlyChild(z.tree);
    ExcisedFacts(c, t, cell);
    AfterRemoveCells(z.ctx, child);
    PlugNodes(z.ctx, child); PlugNodes(z.ctx, z.tree); PlugNodes(c, t); PlugNodes(c, t.(cell := cell));
  }

  /** The successor's cell is the first of the right subtree. */
  lemma ExcisedCells(c: Ctx, t: Shape, cell: Cell)
    requires t.Bin? && t.left.Bin? && t.right.Bin?
    ensures var z := Excised(c, t, cell); [z.tree.cell] + Cells(z.tree.right) + After(z.ctx) == Cells(t.right) + After(c)
  {
    var h := Hole(Right, t.node, t.red, cell, t.left, c);
    var z := Excised(c, t, cell);
    LeftMostFacts(h, t.right);
    PlugCells(h, t.right);
    PlugCells(z.ctx, z.tree);
    assert Before(h) + Cells(t.right) + After(h) == Before(h) + (Cells(t.right) + After(h));
    assert Before(h) + Cells(z.tree) + After(z.ctx) == Before(h) + (Cells(z.tree) + After(z.ctx));
    TailsEqual(Before(h), Cells(t.right) + After(h), Cells(z.tree) + After(z.ctx));
    assert Cells(z.tree) == [z.tree.cell] + Cells(z.tree.right);
  }

  lemma TailsEqual(a: seq<Cell>, b: seq<Cell>, c: seq<Cell>)
    requires a + b == a + c
    ensures b == c
  {
    assert b == (a + b)[|a|..];
    assert c == (a + c)[|a|..];
  }

  lemma RemovedSound(c: Ctx, t: Shape)
    requires t.Bin? && Sound(Plug(c, t))
    ensures Sound(Removed(c, t))
  {
    var cell := Excised(c, t, t.cell).tree.cell;
    var z := Excised(c, t, cell);
    var child := OnlyChild(z.tree);
    ExcisedFacts(c, t, cell);
    SameRules(c, t, t.(cell := cell));
    PlugSound(z.ctx, z.tree);
    PlugSound(z.ctx, child);
    if z.tree.red {
      assert !IsRed(child) && BlackHeight(child) == BlackHeight(z.tree);
      assert Fits(z.ctx, BlackHeight(child), false);
    } else if !(child.Leaf? && z.ctx.Top?) {
      AfterRemoveSound(z.ctx, child);
    }
  }

  /** Removal takes out one cell and keeps the order, and the rules where they held. */
  lemma RemovedFacts(c: Ctx, t: Shape)
    requires t.Bin? && Sorted(Cells(Plug(c, t)))
    ensures Sound(Plug(c, t)) ==> Sound(Removed(c, t))
    ensures var w, w' := Plug(c, t), Removed(c, t);
            && Sorted(Cells(w')) && t.cell.content.Content?
            && t.cell.content.key in Entries(Cells(w)) && Entries(Cells(w))[t.cell.content.key] == t.cell
            && Entries(Cells(w')) == Entries(Cells(w)) - {t.cell.content.key}
            && |Cells(w')| == |Cells(w)| - 1 && TotalSize(Cells(w')) == TotalSize(Cells(w)) - t.cell.size
            && Nodes(w') + {Excised(c, t, t.cell).tree.node} == Nodes(w)
  {
    if Sound(Plug(c, t)) { RemovedSound(c, t); }
    RemovedCells(c, t);
    RemovedNodes(c, t);
    CellsAround(c, t);
    CellGone(Before(c) + Cells(t.left), t.cell, Cells(t.right) + After(c));
  }

  /** Moving the successor's cell up and taking the successor out, as two steps. */
  lemma ExciseInSteps(c: Ctx, t: Shape, cell: Cell)
    requires t.Bin? && t.left.Bin? && t.right.Bin?
    ensures var z, z' := Excised(c, t, t.cell), Excised(c, t, cell);
            var child := OnlyChild(z.tree);
            exists r :: Plug(z.ctx, child) == Plug(c, t.(right := r)) && Plug(z'.ctx, child) == Plug(c, t.(right := r, cell := cell))
  {
    var h, h' := Hole(Right, t.node, t.red, t.cell, t.left, c), Hole(Right, t.node, t.red, cell, t.left, c);
    LeftMostWithin(Top, h, t.right);
    LeftMostWithin(Top, h', t.right);
    var s := LeftMost(Top, t.right);
    var child := OnlyChild(s.tree);
    PlugWithin(s.ctx, h, child);
    PlugWithin(s.ctx, h', child);
    var r := Plug(s.ctx, child);
    assert Plug(h, r) == Plug(c, t.(right := r));
    assert Plug(h', r) == Plug(c, t.(right := r, cell := cell));
  }

  lemma {:induction false} LeftMostBelow(c: Ctx, t: Shape)
    requires t.Bin?
    ensures LeftMost(c, t).tree.node in Nodes(t)
    decreases t
  {
    if t.left.Bin? {
      LeftMostBelow(Hole(Left, t.node, t.red, t.cell, t.right, c), t.left);
    }
  }

  /** What holds once the node is out and the repair begins. */
  lemma ReadyToRepair(c: Ctx, t: Shape)
    requires t.Bin? && Sorted(Cells(Plug(c, t)))
    ensures var z := Excised(c, t, Excised(c, t, t.cell).tree.cell);
            && (z.tree.left.Leaf? || z.tree.right.Leaf?)
            && Sorted(Cells(Plug(z.ctx, OnlyChild(z.tree)))) && Nodes(Plug(z.ctx, OnlyChild(z.tree))) <= Nodes(Plug(c, t))
  {
    var cell := Excised(c, t, t.cell).tree.cell;
    var z := Excised(c, t, cell);
    ExcisedFacts(c, t, cell);
    RemovedFacts(c, t);
    AfterRemoveCells(z.ctx, OnlyChild(z.tree));
  }
}
