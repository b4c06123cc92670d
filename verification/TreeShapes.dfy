/**
 Red-black trees as values: the shape of an MQTT_Tree (MQTTTree.c) seen from outside the heap.

 A Shape is a tree whose vertices name the Node objects that carry them.  A Ctx is what is left of
 a tree when the subtree in focus is taken out, read from the focus up to the root, which is the
 order in which the rebalancing loops climb.  Everything in this module is pure; MqttTree ties
 it to the heap.
 */
module TreeShapes {

  /** What a node holds: NoContent is the null content pointer, which only a stand-in node has. */
  datatype Content = NoContent | Content(key: int, value: int)

  datatype Cell = Cell(content: Content, size: nat)

  /** The two indexes of the child array. */
  datatype Dir = Left | Right {
    function Opp(): Dir {
      if Left? then Right else Left
    }
  }

  /** What the fields of a node are. */
  datatype Record = Record(parent: Node?, left: Node?, right: Node?, red: bool, cell: Cell)

  ghost function WithChild(r: Record, d: Dir, p: Node?): Record {
    if d.Left? then r.(left := p) else r.(right := p)
  }

  ghost function View(n: Node): Record
    reads n
  {
    Record(n.parent, n.left, n.right, n.red, Cell(n.content, n.size))
  }

  class Node {
    var parent: Node?
    var left: Node?
    var right: Node?
    var content: Content
    var size: nat
    var red: bool

    constructor (parent: Node?, content: Content, size: nat, red: bool)
      ensures this.parent == parent && left == null && right == null
      ensures this.content == content && this.size == size && this.red == red
    {
      this.parent := parent;
      left, right := null, null;
      this.content, this.size, this.red := content, size, red;
    }

    function Child(d: Dir): Node?
      reads this`left, this`right
    {
      if d.Left? then left else right
    }

    method SetChild(d: Dir, n: Node?)
      modifies this`left, this`right
      ensures View(this) == WithChild(old(View(this)), d, n)
    {
      if d.Left? { left := n; } else { right := n; }
    }
  }

  datatype Shape = Leaf | Bin(node: Node, red: bool, cell: Cell, left: Shape, right: Shape)

  /** Hole(d, n, ...): the focus is child d of n, and sib is the other child. */
  datatype Ctx = Top | Hole(dir: Dir, node: Node, red: bool, cell: Cell, sib: Shape, up: Ctx)

  /** A vertex with `a` on side d and `b` on the other one. */
  function Mk(d: Dir, n: Node, red: bool, cell: Cell, a: Shape, b: Shape): Shape {
    if d.Left? then Bin(n, red, cell, a, b) else Bin(n, red, cell, b, a)
  }

  function Side(t: Shape, d: Dir): Shape
    requires t.Bin?
  {
    if d.Left? then t.left else t.right
  }

  /** The whole tree: the focus put back in its context. */
  ghost function Plug(c: Ctx, t: Shape): Shape {
    match c
    case Top => t
    case Hole(d, n, red, cell, sib, up) => Plug(up, Mk(d, n, red, cell, t, sib))
  }

  predicate IsRed(t: Shape) {
    t.Bin? && t.red
  }

  function Paint(t: Shape, red: bool): Shape {
    if t.Leaf? then t else t.(red := red)
  }

  ghost function Nodes(t: Shape): set<Node> {
    match t
    case Leaf => {}
    case Bin(n, _, _, l, r) => {n} + Nodes(l) + Nodes(r)
  }

  ghost function CtxNodes(c: Ctx): set<Node> {
    match c
    case Top => {}
    case Hole(_, n, _, _, sib, up) => {n} + Nodes(sib) + CtxNodes(up)
  }

  /** The cells of a tree, in order. */
  ghost function Cells(t: Shape): seq<Cell> {
    match t
    case Leaf => []
    case Bin(_, _, cell, l, r) => Cells(l) + [cell] + Cells(r)
  }

  /** The cells a context puts before its focus, and after it. */
  ghost function Before(c: Ctx): seq<Cell> {
    match c
    case Top => []
    case Hole(d, _, _, cell, sib, up) => if d.Left? then Before(up) else Before(up) + Cells(sib) + [cell]
  }

  ghost function After(c: Ctx): seq<Cell> {
    match c
    case Top => []
    case Hole(d, _, _, cell, sib, up) => if d.Left? then [cell] + Cells(sib) + After(up) else After(up)
  }

  lemma {:induction false} PlugCells(c: Ctx, t: Shape)
    ensures Cells(Plug(c, t)) == Before(c) + Cells(t) + After(c)
  {
    match c
    case Top =>
    case Hole(d, n, red, cell, sib, up) =>
      PlugCells(up, Mk(d, n, red, cell, t, sib));
      Regroup(Before(up), Cells(t), [cell], Cells(sib), After(up));
  }

  lemma Regroup(a: seq<Cell>, t: seq<Cell>, x: seq<Cell>, s: seq<Cell>, b: seq<Cell>)
    ensures a + (t + x + s) + b == a + t + (x + s + b)
    ensures a + (s + x + t) + b == a + s + x + t + b
  {
  }

  lemma {:induction false} PlugNodes(c: Ctx, t: Shape)
    ensures Nodes(Plug(c, t)) == CtxNodes(c) + Nodes(t)
  {
    match c
    case Top =>
    case Hole(d, n, red, cell, sib, up) =>
      PlugNodes(up, Mk(d, n, red, cell, t, sib));
  }

  // ----- the nodes in order

  ghost function Order(t: Shape): seq<Node> {
    if t.Leaf? then [] else Order(t.left) + [t.node] + Order(t.right)
  }

  ghost function OrderBefore(c: Ctx): seq<Node> {
    if c.Top? then []
    else if c.dir.Left? then OrderBefore(c.up) else OrderBefore(c.up) + Order(c.sib) + [c.node]
  }

  ghost function OrderAfter(c: Ctx): seq<Node> {
    if c.Top? then []
    else if c.dir.Left? then [c.node] + Order(c.sib) + OrderAfter(c.up) else OrderAfter(c.up)
  }

  lemma {:induction false} PlugOrder(c: Ctx, t: Shape)
    ensures Order(Plug(c, t)) == OrderBefore(c) + Order(t) + OrderAfter(c)
  {
    if c.Hole? {
      PlugOrder(c.up, Mk(c.dir, c.node, c.red, c.cell, t, c.sib));
      RegroupNodes(OrderBefore(c.up), Order(t), [c.node], Order(c.sib), OrderAfter(c.up));
    }
  }

  lemma RegroupNodes(a: seq<Node>, t: seq<Node>, x: seq<Node>, s: seq<Node>, b: seq<Node>)
    ensures a + (t + x + s) + b == a + t + (x + s + b)
    ensures a + (s + x + t) + b == a + s + x + t + b
  {
  }

  ghost function Elements(s: seq<Node>): set<Node> {
    set i | 0 <= i < |s| :: s[i]
  }

  lemma ElementsJoin(a: seq<Node>, n: Node, b: seq<Node>)
    ensures Elements(a + [n] + b) == {n} + Elements(a) + Elements(b)
  {
    var s := a + [n] + b;
    assert s[|a|] == n;
    assert forall i :: 0 <= i < |a| ==> s[i] == a[i];
    assert forall i :: 0 <= i < |b| ==> s[|a| + 1 + i] == b[i];
  }

  lemma {:induction false} OrderNodes(t: Shape)
    ensures |Order(t)| == |Cells(t)| && Elements(Order(t)) == Nodes(t)
  {
    if t.Bin? {
      OrderNodes(t.left);
      OrderNodes(t.right);
      ElementsJoin(Order(t.left), t.node, Order(t.right));
    }
  }

  /** The node that follows the root of a focus in order. */
  ghost function Next(c: Ctx, t: Shape): Node?
    requires t.Bin?
  {
    if t.right.Bin? then First(t.right) else Climb(c)
  }

  ghost function First(t: Shape): Node
    requires t.Bin?
    decreases t
  {
    if t.left.Leaf? then t.node else First(t.left)
  }

  ghost function Climb(c: Ctx): Node? {
    if c.Top? then null else if c.dir.Left? then c.node else Climb(c.up)
  }

  ghost function Head(s: seq<Node>): Node? {
    if s == [] then null else s[0]
  }

  lemma {:induction false} FirstIsHead(t: Shape)
    requires t.Bin?
    ensures Order(t) != [] && Order(t)[0] == First(t)
    decreases t
  {
    if t.left.Bin? {
      FirstIsHead(t.left);
    }
  }

  lemma {:induction false} ClimbIsHead(c: Ctx)
    ensures Climb(c) == Head(OrderAfter(c))
  {
    if c.Hole? && c.dir.Right? {
      ClimbIsHead(c.up);
    }
  }

  lemma NextIsHead(c: Ctx, t: Shape)
    requires t.Bin?
    ensures Order(Plug(c, t)) == (OrderBefore(c) + Order(t.left)) + [t.node] + (Order(t.right) + OrderAfter(c))
    ensures Next(c, t) == Head(Order(t.right) + OrderAfter(c))
  {
    PlugOrder(c, t);
    ClimbIsHead(c);
    BracketNodes(OrderBefore(c), Order(t.left), [t.node], Order(t.right), OrderAfter(c));
    if t.right.Bin? {
      FirstIsHead(t.right);
      assert (Order(t.right) + OrderAfter(c))[0] == Order(t.right)[0];
    } else {
      assert Order(t.right) + OrderAfter(c) == OrderAfter(c);
    }
  }

  lemma BracketNodes(a: seq<Node>, l: seq<Node>, x: seq<Node>, r: seq<Node>, b: seq<Node>)
    ensures a + (l + x + r) + b == (a + l) + x + (r + b)
  {
  }
}
