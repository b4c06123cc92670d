/**
 The red-black rules, and the height they allow.
 */
module TreeRules {
  import opened TreeShapes

  // ----- the red-black rules

  /** Black vertices on the way down to a leaf. */
  ghost function BlackHeight(t: Shape): nat {
    match t
    case Leaf => 0
    case Bin(_, red, _, l, _) => BlackHeight(l) + if red then 0 else 1
  }

  /** Equal black heights below every vertex, and no red vertex below a red one. */
  ghost predicate RedBlack(t: Shape) {
    match t
    case Leaf => true
    case Bin(_, red, _, l, r) =>
      && RedBlack(l) && RedBlack(r)
      && BlackHeight(l) == BlackHeight(r)
      && (red ==> !IsRed(l) && !IsRed(r))
  }

  /** A whole tree that keeps the rules: its root is black too. */
  ghost predicate Sound(t: Shape) {
    RedBlack(t) && !IsRed(t)
  }

  /** The context accepts a subtree of black height h whose root is red or not. */
  ghost predicate Fits(c: Ctx, h: nat, red: bool) {
    match c
    case Top => !red
    case Hole(_, _, pred, _, sib, up) =>
      && RedBlack(sib)
      && BlackHeight(sib) == h
      && (pred ==> !red && !IsRed(sib))
      && Fits(up, h + if pred then 0 else 1, pred)
  }

  lemma {:induction false} PlugSound(c: Ctx, t: Shape)
    ensures Sound(Plug(c, t)) <==> RedBlack(t) && Fits(c, BlackHeight(t), IsRed(t))
  {
    match c
    case Top =>
    case Hole(d, n, red, cell, sib, up) =>
      PlugSound(up, Mk(d, n, red, cell, t, sib));
  }

  ghost function Max(a: nat, b: nat): nat {
    if a < b then b else a
  }

  ghost function Height(t: Shape): nat {
    match t
    case Leaf => 0
    case Bin(_, _, _, l, r) => 1 + Max(Height(l), Height(r))
  }

  ghost function Pow2(n: nat): nat {
    if n == 0 then 1 else 2 * Pow2(n - 1)
  }

  lemma {:induction false} Pow2Twice(n: nat)
    ensures Pow2(2 * n) == Pow2(n) * Pow2(n)
  {
    if n > 0 {
      Pow2Twice(n - 1);
      assert Pow2(2 * n) == 4 * Pow2(2 * (n - 1));
      assert Pow2(n) * Pow2(n) == 4 * (Pow2(n - 1) * Pow2(n - 1));
    }
  }

  lemma {:induction false} Pow2Monotone(a: nat, b: nat)
    requires a <= b
    ensures Pow2(a) <= Pow2(b)
  {
    if a < b {
      Pow2Monotone(a, b - 1);
    }
  }

  lemma {:induction false} HeightByBlackHeight(t: Shape)
    requires RedBlack(t)
    ensures Height(t) <= 2 * BlackHeight(t) + if IsRed(t) then 1 else 0
    ensures Pow2(BlackHeight(t)) <= |Cells(t)| + 1
  {
    if t.Bin? {
      HeightByBlackHeight(t.left);
      HeightByBlackHeight(t.right);
    }
  }

  /** Height at most 2 * log2(n + 1), for the n cells of any tree that keeps the rules. */
  lemma HeightIsLogarithmic(t: Shape)
    requires Sound(t)
    ensures Pow2(Height(t)) <= (|Cells(t)| + 1) * (|Cells(t)| + 1)
  {
    var b := BlackHeight(t);
    HeightByBlackHeight(t);
    Pow2Monotone(Height(t), 2 * b);
    Pow2Twice(b);
    SquareMonotone(Pow2(b), |Cells(t)| + 1);
  }

  lemma SquareMonotone(a: nat, b: nat)
    requires a <= b
    ensures a * a <= b * b
  {
    assert b * b - a * a == (b - a) * (b + a);
  }
}
