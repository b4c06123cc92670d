/**
 Search order, contents, and the search for a key.
 */
module TreeContents {
  import opened TreeShapes

  // ----- search order and contents

  ghost predicate Sorted(s: seq<Cell>) {
    && (forall i :: 0 <= i < |s| ==> s[i].content.Content?)
    && (forall i, j :: 0 <= i < j < |s| ==> s[i].content.key < s[j].content.key)
  }

  /** What a run of cells holds, by key. */
  ghost function Entries(s: seq<Cell>): map<int, Cell> {
    if s == [] then map[]
    else
      var last := s[|s| - 1];
      if last.content.Content? then Entries(s[..|s| - 1])[last.content.key := last] else Entries(s[..|s| - 1])
  }

  ghost function TotalSize(s: seq<Cell>): nat {
    if s == [] then 0 else TotalSize(s[..|s| - 1]) + s[|s| - 1].size
  }

  lemma {:induction false} EntriesJoin(a: seq<Cell>, b: seq<Cell>)
    ensures Entries(a + b) == Entries(a) + Entries(b)
    ensures TotalSize(a + b) == TotalSize(a) + TotalSize(b)
  {
    if b == [] {
      assert a + b == a;
    } else {
      var b' := b[..|b| - 1];
      EntriesJoin(a, b');
      assert (a + b)[..|a + b| - 1] == a + b';
      assert (a + b)[|a + b| - 1] == b[|b| - 1];
    }
  }

  lemma {:induction false} EntriesKeys(s: seq<Cell>)
    requires Sorted(s)
    ensures forall i :: 0 <= i < |s| ==> s[i].content.key in Entries(s)
    ensures forall k :: k in Entries(s) ==> exists i :: 0 <= i < |s| && s[i].content.key == k
    ensures |Entries(s)| == |s|
  {
    if s != [] {
      var s' := s[..|s| - 1];
      EntriesKeys(s');
      forall k | k in Entries(s) ensures exists i :: 0 <= i < |s| && s[i].content.key == k {
        if k in Entries(s') {
          var i :| 0 <= i < |s'| && s'[i].content.key == k;
          assert s[i].content.key == k;
        } else {
          assert s[|s| - 1].content.key == k;
        }
      }
      assert s[|s| - 1].content.key !in Entries(s');
    }
  }

  ghost predicate AllBelow(s: seq<Cell>, k: int) {
    forall i :: 0 <= i < |s| ==> s[i].content.Content? && s[i].content.key < k
  }

  ghost predicate AllAbove(s: seq<Cell>, k: int) {
    forall i :: 0 <= i < |s| ==> s[i].content.Content? && k < s[i].content.key
  }

  ghost predicate Less(a: seq<Cell>, b: seq<Cell>)
    requires Sorted(a) && Sorted(b)
  {
    forall i, j :: 0 <= i < |a| && 0 <= j < |b| ==> a[i].content.key < b[j].content.key
  }

  lemma SortedJoin(a: seq<Cell>, b: seq<Cell>)
    requires Sorted(a) && Sorted(b) && Less(a, b)
    ensures Sorted(a + b)
  {
  }

  lemma SortedCut(a: seq<Cell>, b: seq<Cell>)
    requires Sorted(a + b)
    ensures Sorted(a) && Sorted(b) && Less(a, b)
  {
    var s := a + b;
    assert forall i :: 0 <= i < |a| ==> a[i] == s[i];
    assert forall j :: 0 <= j < |b| ==> b[j] == s[|a| + j];
  }

  lemma SortedAround(a: seq<Cell>, x: Cell, b: seq<Cell>)
    requires Sorted(a + [x] + b)
    ensures x.content.Content? && Sorted(a + b) && AllBelow(a, x.content.key) && AllAbove(b, x.content.key)
  {
    SortedCut(a + [x], b);
    SortedCut(a, [x]);
    assert (a + [x])[|a|] == x && [x][0] == x;
    assert forall i :: 0 <= i < |a| ==> (a + [x])[i] == a[i];
    SortedJoin(a, b);
  }

  lemma SortedInsert(a: seq<Cell>, x: Cell, b: seq<Cell>)
    requires Sorted(a + b) && x.content.Content? && AllBelow(a, x.content.key) && AllAbove(b, x.content.key)
    ensures Sorted(a + [x] + b)
  {
    SortedCut(a, b);
    SortedJoin(a, [x]);
    SortedJoin(a + [x], b);
  }

  lemma {:induction false} EntriesBounded(s: seq<Cell>, k: int)
    requires AllBelow(s, k) || AllAbove(s, k)
    ensures k !in Entries(s)
  {
    if s != [] {
      EntriesBounded(s[..|s| - 1], k);
    }
  }

  /** In a sorted run, what x adds to the two ends. */
  lemma EntriesAround(a: seq<Cell>, x: Cell, b: seq<Cell>)
    requires x.content.Content? && AllBelow(a, x.content.key) && AllAbove(b, x.content.key)
    ensures x.content.key !in Entries(a + b)
    ensures Entries(a + [x] + b) == Entries(a + b)[x.content.key := x]
    ensures TotalSize(a + [x] + b) == TotalSize(a + b) + x.size
  {
    EntriesJoin(a, b);
    EntriesJoin(a, [x]);
    EntriesJoin(a + [x], b);
    assert [x][..0] == [];
    assert Entries([x]) == map[x.content.key := x];
    EntriesBounded(a, x.content.key);
    EntriesBounded(b, x.content.key);
  }

  // ----- search

  /** A focus and its context. */
  datatype Zip = Zip(ctx: Ctx, tree: Shape)

  ghost function Whole(z: Zip): Shape {
    Plug(z.ctx, z.tree)
  }

  /** Where a search for key k that stands at the focus ends: at the key, or at the leaf where it belongs. */
  ghost function Seek(c: Ctx, t: Shape, k: int): (z: Zip)
    ensures Whole(z) == Plug(c, t)
    ensures z.tree.Bin? && z.tree.cell.content.Content? ==> z.tree.cell.content.key == k
    decreases t
  {
    if t.Leaf? || t.cell.content.NoContent? || t.cell.content.key == k then Zip(c, t)
    else if t.cell.content.key < k then Seek(Hole(Right, t.node, t.red, t.cell, t.left, c), t.right, k)
    else Seek(Hole(Left, t.node, t.red, t.cell, t.right, c), t.left, k)
  }

  /** The focus at node n. */
  ghost function Locate(c: Ctx, t: Shape, n: Node): (z: Zip)
    requires n in Nodes(t)
    ensures z.tree.Bin? && z.tree.node == n && Whole(z) == Plug(c, t)
    decreases t
  {
    if t.node == n then Zip(c, t)
    else if n in Nodes(t.left) then Locate(Hole(Left, t.node, t.red, t.cell, t.right, c), t.left, n)
    else Locate(Hole(Right, t.node, t.red, t.cell, t.left, c), t.right, n)
  }

  /** The cells around the root of a focus. */
  lemma CellsAround(c: Ctx, t: Shape)
    requires t.Bin?
    ensures Cells(Plug(c, t)) == (Before(c) + Cells(t.left)) + [t.cell] + (Cells(t.right) + After(c))
  {
    PlugCells(c, t);
    assert Cells(t) == Cells(t.left) + [t.cell] + Cells(t.right);
    hide Plug, Cells, Before, After;
    Bracketed(Before(c), Cells(t.left), t.cell, Cells(t.right), After(c));
  }

  lemma Bracketed(a: seq<Cell>, l: seq<Cell>, x: Cell, r: seq<Cell>, b: seq<Cell>)
    ensures a + (l + [x] + r) + b == (a + l) + [x] + (r + b)
  {
  }

  /** Everything before the place where the search ends is smaller, everything after it larger. */
  lemma {:induction false} SeekBounds(c: Ctx, t: Shape, k: int)
    requires Sorted(Cells(Plug(c, t))) && AllBelow(Before(c), k) && AllAbove(After(c), k)
    ensures var z := Seek(c, t, k);
            && (z.tree.Leaf? ==> AllBelow(Before(z.ctx), k) && AllAbove(After(z.ctx), k))
            && (z.tree.Bin? ==> z.tree.cell.content.Content? && z.tree.cell.content.key == k)
    decreases t
  {
    if t.Bin? {
      SeekOnce(c, t, k);
      if t.cell.content.key < k {
        SeekBounds(Hole(Right, t.node, t.red, t.cell, t.left, c), t.right, k);
      } else if t.cell.content.key > k {
        SeekBounds(Hole(Left, t.node, t.red, t.cell, t.right, c), t.left, k);
      }
    }
  }

  lemma SeekOnce(c: Ctx, t: Shape, k: int)
    requires t.Bin? && Sorted(Cells(Plug(c, t))) && AllBelow(Before(c), k) && AllAbove(After(c), k)
    ensures t.cell.content.Content?
    ensures t.cell.content.key < k ==> AllBelow(Before(c) + Cells(t.left) + [t.cell], k)
    ensures t.cell.content.key > k ==> AllAbove([t.cell] + Cells(t.right) + After(c), k)
  {
    hide Plug, Before, After, Cells;
    CellsAround(c, t);
    var l, r, x := Cells(t.left), Cells(t.right), t.cell;
    SortedAround(Before(c) + l, x, r + After(c));
    if x.content.key < k {
      BelowJoin(Before(c) + l, x, k);
    } else if x.content.key > k {
      AboveJoin(x, r + After(c), k);
      assert [x] + (r + After(c)) == [x] + r + After(c);
    }
  }

  lemma BelowJoin(a: seq<Cell>, x: Cell, k: int)
    requires x.content.Content? && AllBelow(a, x.content.key) && x.content.key < k
    ensures AllBelow(a + [x], k)
  {
  }

  lemma AboveJoin(x: Cell, b: seq<Cell>, k: int)
    requires x.content.Content? && AllAbove(b, x.content.key) && k < x.content.key
    ensures AllAbove([x] + b, k)
  {
  }

  lemma CellGone(a: seq<Cell>, x: Cell, b: seq<Cell>)
    requires Sorted(a + [x] + b)
    ensures var s, s' := a + [x] + b, a + b;
            && Sorted(s') && x.content.Content? && x.content.key in Entries(s) && Entries(s)[x.content.key] == x
            && Entries(s') == Entries(s) - {x.content.key}
            && |s'| == |s| - 1 && TotalSize(s') == TotalSize(s) - x.size
  {
    SortedAround(a, x, b);
    EntriesAround(a, x, b);
  }

  lemma SeekStart(k: int)
    ensures AllBelow(Before(Top), k) && AllAbove(After(Top), k)
  {
  }

  /** A search ends at a node exactly when the key is there, and then at that key's cell. */
  lemma SeekFinds(w: Shape, k: int)
    requires Sorted(Cells(w))
    ensures var z := Seek(Top, w, k);
            && (z.tree.Bin? <==> k in Entries(Cells(w)))
            && (z.tree.Bin? ==> Entries(Cells(w))[k] == z.tree.cell)
  {
    hide Entries, Sorted, TotalSize, Before, After;
    var z := Seek(Top, w, k);
    assert Plug(Top, w) == w;
    SeekStart(k);
    SeekBounds(Top, w, k);
    if z.tree.Bin? {
      CellsAround(z.ctx, z.tree);
      CellGone(Before(z.ctx) + Cells(z.tree.left), z.tree.cell, Cells(z.tree.right) + After(z.ctx));
    } else {
      PlugCells(z.ctx, Leaf);
      EntriesJoin(Before(z.ctx), After(z.ctx));
      EntriesBounded(Before(z.ctx), k);
      EntriesBounded(After(z.ctx), k);
      assert Before(z.ctx) + [] + After(z.ctx) == Before(z.ctx) + After(z.ctx);
    }
  }
}
