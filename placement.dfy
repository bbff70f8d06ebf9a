/**
 * Where `watermark_image` (src/main.rs) draws its repeated text: a grid
 * walk over three times the image in each direction, each grid point turned
 * by a fixed rotation about the centre and kept only when it lands well
 * inside the image. Pixels are not modelled; the result is the sequence of
 * anchors handed to the text renderer, in drawing order.
 */
module ImagePlacement {

  /** A point where the text is drawn, in pixel coordinates. */
  datatype Anchor = Anchor(x: int, y: int)

  /**
   * Sides are below this bound in the model: there `(w as f32 / 2.5) as i32`
   * and `(h as f32 / 3.0) as i32` are exactly the integer quotients below.
   */
  const MaxSide: nat := 4194304

  /** `(width as f32 / 2.5) as i32`. */
  function XStep(w: nat): nat {
    2 * w / 5
  }

  /** `(height as f32 / 3.0) as i32`. */
  function YStep(h: nat): nat {
    h / 3
  }

  /** Both steps are non-zero exactly when both sides are at least 3; `step_by(0)` panics otherwise. */
  lemma StepsPositive(w: nat, h: nat)
    ensures XStep(w) > 0 <==> w >= 3
    ensures YStep(h) > 0 <==> h >= 3
  {
  }

  /**
   * The grid point `(x, y)` turned about the image centre: the rotation
   * (the worker's f32 arithmetic for -30 degrees) gives an offset, to which
   * the centre `(w / 2, h / 2)` is added.
   */
  function Rotated(x: int, y: int, w: nat, h: nat, rotate: (int, int) -> (int, int)): Anchor {
    var offset := rotate(x, y);
    Anchor(offset.0 + w / 2, offset.1 + h / 2)
  }

  /** The drawing condition: 100 pixels clear of the right edge, 30 of the bottom, strictly inside the top and left. */
  predicate InBounds(a: Anchor, w: nat, h: nat) {
    0 < a.x < w - 100 && 0 < a.y < h - 30
  }

  /** The anchors of one row `y`, for the columns `x, x + XStep(w), ...` below `2 * w`. */
  function RowFrom(x: int, y: int, w: nat, h: nat, rotate: (int, int) -> (int, int)): seq<Anchor>
    requires w >= 3
    decreases 2 * w - x
  {
    if x >= 2 * w then []
    else
      var a := Rotated(x, y, w, h, rotate);
      (if InBounds(a, w, h) then [a] else []) + RowFrom(x + XStep(w), y, w, h, rotate)
  }

  /** The anchors of the rows `y, y + YStep(h), ...` below `2 * h`, each row from `x = -w`. */
  function RowsFrom(y: int, w: nat, h: nat, rotate: (int, int) -> (int, int)): seq<Anchor>
    requires w >= 3 && h >= 3
    decreases 2 * h - y
  {
    if y >= 2 * h then []
    else RowFrom(-(w as int), y, w, h, rotate) + RowsFrom(y + YStep(h), w, h, rotate)
  }

  /** Every anchor the worker draws for an image of `w` by `h` pixels, in drawing order. */
  function Placement(w: nat, h: nat, rotate: (int, int) -> (int, int)): seq<Anchor>
    requires w >= 3 && h >= 3
  {
    RowsFrom(-(h as int), w, h, rotate)
  }

  /**
   * The nested `for` loops of `watermark_image`: rows from `-h` below `2h`
   * by `YStep(h)`, columns from `-w` below `2w` by `XStep(w)`, an anchor
   * appended whenever the turned point is inside the bounds.
   */
  method DiagonalAnchors(w: nat, h: nat, rotate: (int, int) -> (int, int)) returns (drawn: seq<Anchor>)
    requires 3 <= w < MaxSide && 3 <= h < MaxSide
    ensures drawn == Placement(w, h, rotate)
  {
    StepsPositive(w, h);
    var yStep := YStep(h);
    drawn := [];
    var y := -(h as int);
    RowsStart(w, h, rotate);
    while y < 2 * h
      invariant RowsLeft(drawn, y, w, h, rotate)
      decreases 2 * h - y
    {
      var row := RowAnchors(y, w, h, rotate);
      RowsFromStep(drawn, row, y, w, h, rotate);
      drawn := drawn + row;
      y := y + yStep;
    }
    RowsEnd(drawn, y, w, h, rotate);
  }

  /** The loop's invariant: what is drawn, followed by the rows from `y` on, is the whole placement. */
  ghost predicate RowsLeft(drawn: seq<Anchor>, y: int, w: nat, h: nat, rotate: (int, int) -> (int, int))
    requires w >= 3 && h >= 3
  {
    drawn + RowsFrom(y, w, h, rotate) == Placement(w, h, rotate)
  }

  lemma RowsStart(w: nat, h: nat, rotate: (int, int) -> (int, int))
    requires w >= 3 && h >= 3
    ensures RowsLeft([], -(h as int), w, h, rotate)
  {
    assert [] + RowsFrom(-(h as int), w, h, rotate) == RowsFrom(-(h as int), w, h, rotate);
  }

  lemma RowsFromStep(drawn: seq<Anchor>, row: seq<Anchor>, y: int, w: nat, h: nat, rotate: (int, int) -> (int, int))
    requires 3 <= w && 3 <= h && y < 2 * h
    requires row == RowFrom(-(w as int), y, w, h, rotate) && RowsLeft(drawn, y, w, h, rotate)
    ensures RowsLeft(drawn + row, y + YStep(h), w, h, rotate)
  {
    assert RowsFrom(y, w, h, rotate) == row + RowsFrom(y + YStep(h), w, h, rotate);
    assert drawn + (row + RowsFrom(y + YStep(h), w, h, rotate)) == (drawn + row) + RowsFrom(y + YStep(h), w, h, rotate);
  }

  lemma RowsEnd(drawn: seq<Anchor>, y: int, w: nat, h: nat, rotate: (int, int) -> (int, int))
    requires 3 <= w && 3 <= h && y >= 2 * h && RowsLeft(drawn, y, w, h, rotate)
    ensures drawn == Placement(w, h, rotate)
  {
    assert RowsFrom(y, w, h, rotate) == [];
    assert drawn + [] == drawn;
  }

  /** The inner loop: the anchors of row `y`, columns from `-w` below `2w` by `XStep(w)`. */
  method RowAnchors(y: int, w: nat, h: nat, rotate: (int, int) -> (int, int)) returns (row: seq<Anchor>)
    requires 3 <= w < MaxSide
    ensures row == RowFrom(-(w as int), y, w, h, rotate)
  {
    StepsPositive(w, h);
    var xStep := XStep(w);
    row := [];
    var x := -(w as int);
    ColumnsStart(y, w, h, rotate);
    while x < 2 * w
      invariant ColumnsLeft(row, x, y, w, h, rotate)
      decreases 2 * w - x
    {
      var a := Rotated(x, y, w, h, rotate);
      ColumnStep(row, x, y, w, h, rotate);
      if InBounds(a, w, h) {
        row := row + [a];
      }
      x := x + xStep;
    }
    ColumnsEnd(row, x, y, w, h, rotate);
  }

  /** The inner loop's invariant: what is kept, followed by the columns from `x` on, is the whole row. */
  ghost predicate ColumnsLeft(row: seq<Anchor>, x: int, y: int, w: nat, h: nat, rotate: (int, int) -> (int, int))
    requires w >= 3
  {
    row + RowFrom(x, y, w, h, rotate) == RowFrom(-(w as int), y, w, h, rotate)
  }

  lemma ColumnsStart(y: int, w: nat, h: nat, rotate: (int, int) -> (int, int))
    requires w >= 3
    ensures ColumnsLeft([], -(w as int), y, w, h, rotate)
  {
    assert [] + RowFrom(-(w as int), y, w, h, rotate) == RowFrom(-(w as int), y, w, h, rotate);
  }

  lemma ColumnStep(row: seq<Anchor>, x: int, y: int, w: nat, h: nat, rotate: (int, int) -> (int, int))
    requires w >= 3 && x < 2 * w && ColumnsLeft(row, x, y, w, h, rotate)
    ensures var a := Rotated(x, y, w, h, rotate);
            ColumnsLeft(if InBounds(a, w, h) then row + [a] else row, x + XStep(w), y, w, h, rotate)
  {
    var a := Rotated(x, y, w, h, rotate);
    var rest := RowFrom(x + XStep(w), y, w, h, rotate);
    if InBounds(a, w, h) {
      assert RowFrom(x, y, w, h, rotate) == [a] + rest;
      assert row + ([a] + rest) == (row + [a]) + rest;
    } else {
      assert RowFrom(x, y, w, h, rotate) == [] + rest;
      assert [] + rest == rest;
    }
  }

  lemma ColumnsEnd(row: seq<Anchor>, x: int, y: int, w: nat, h: nat, rotate: (int, int) -> (int, int))
    requires w >= 3 && x >= 2 * w && ColumnsLeft(row, x, y, w, h, rotate)
    ensures row == RowFrom(-(w as int), y, w, h, rotate)
  {
    assert RowFrom(x, y, w, h, rotate) == [];
    assert row + [] == row;
  }

  /** The `k`-th point of a walk from `start` by `step`. */
  function Nth(start: int, step: nat, k: nat): int {
    start + k * step
  }

  /** Grid point `(x, y)` is drawn, and drawn at `a`. */
  predicate Hits(x: int, y: int, w: nat, h: nat, rotate: (int, int) -> (int, int), a: Anchor) {
    Rotated(x, y, w, h, rotate) == a && InBounds(a, w, h)
  }

  /** Column `k` of the walk from `x` lies below `2w` and turns onto `a` inside the bounds. */
  predicate ColumnHit(x: int, k: nat, y: int, w: nat, h: nat, rotate: (int, int) -> (int, int), a: Anchor) {
    Nth(x, XStep(w), k) < 2 * w && Hits(Nth(x, XStep(w), k), y, w, h, rotate, a)
  }

  /** An anchor is in a row exactly when some column of the row turns onto it inside the bounds. */
  lemma {:induction false} RowMembers(x: int, y: int, w: nat, h: nat, rotate: (int, int) -> (int, int), a: Anchor)
    requires w >= 3
    ensures a in RowFrom(x, y, w, h, rotate) <==> exists k: nat :: ColumnHit(x, k, y, w, h, rotate, a)
    decreases 2 * w - x
  {
    var s := XStep(w);
    if x < 2 * w {
      RowMembers(x + s, y, w, h, rotate, a);
      RowFromSplit(x, y, w, h, rotate, a);
      if a in RowFrom(x, y, w, h, rotate) {
        if Hits(x, y, w, h, rotate, a) {
          FirstColumn(x, y, w, h, rotate, a);
        } else {
          var k: nat :| ColumnHit(x + s, k, y, w, h, rotate, a);
          ColumnShift(x, k, y, w, h, rotate, a);
        }
      }
      if exists k: nat :: ColumnHit(x, k, y, w, h, rotate, a) {
        var k: nat :| ColumnHit(x, k, y, w, h, rotate, a);
        if k == 0 {
          FirstColumn(x, y, w, h, rotate, a);
        } else {
          ColumnShift(x, k - 1, y, w, h, rotate, a);
        }
      }
    } else {
      forall k: nat ensures !ColumnHit(x, k, y, w, h, rotate, a) {
        NthBelow(x, s, k, 2 * w);
      }
    }
  }

  lemma RowFromSplit(x: int, y: int, w: nat, h: nat, rotate: (int, int) -> (int, int), a: Anchor)
    requires w >= 3 && x < 2 * w
    ensures a in RowFrom(x, y, w, h, rotate) <==> Hits(x, y, w, h, rotate, a) || a in RowFrom(x + XStep(w), y, w, h, rotate)
  {
    var b := Rotated(x, y, w, h, rotate);
    assert RowFrom(x, y, w, h, rotate) == (if InBounds(b, w, h) then [b] else []) + RowFrom(x + XStep(w), y, w, h, rotate);
  }

  /** Column `k + 1` from `x` is column `k` from the next column. */
  lemma ColumnShift(x: int, k: nat, y: int, w: nat, h: nat, rotate: (int, int) -> (int, int), a: Anchor)
    ensures ColumnHit(x, k + 1, y, w, h, rotate, a) == ColumnHit(x + XStep(w), k, y, w, h, rotate, a)
  {
    assert Nth(x, XStep(w), k + 1) == Nth(x + XStep(w), XStep(w), k);
  }

  /** Column 0 from `x` is `x` itself. */
  lemma FirstColumn(x: int, y: int, w: nat, h: nat, rotate: (int, int) -> (int, int), a: Anchor)
    ensures ColumnHit(x, 0, y, w, h, rotate, a) <==> x < 2 * w && Hits(x, y, w, h, rotate, a)
  {
    assert Nth(x, XStep(w), 0) == x;
  }

  /** Grid point `j` of row `i`, counting rows from `y`, lies in the walk and turns onto `a` inside the bounds. */
  predicate DrawnFrom(y: int, i: nat, j: nat, w: nat, h: nat, rotate: (int, int) -> (int, int), a: Anchor) {
    var gy := Nth(y, YStep(h), i);
    var gx := Nth(-(w as int), XStep(w), j);
    gy < 2 * h && gx < 2 * w && Hits(gx, gy, w, h, rotate, a)
  }

  /** An anchor is in the rows from `y` exactly when some grid point of those rows turns onto it inside the bounds. */
  lemma {:induction false} RowsMembers(y: int, w: nat, h: nat, rotate: (int, int) -> (int, int), a: Anchor)
    requires w >= 3 && h >= 3
    ensures a in RowsFrom(y, w, h, rotate) <==> exists i: nat, j: nat :: DrawnFrom(y, i, j, w, h, rotate, a)
    decreases 2 * h - y
  {
    if y < 2 * h {
      var next := y + YStep(h);
      RowsMembers(next, w, h, rotate, a);
      RowsFromSplit(y, w, h, rotate, a);
      if a in RowsFrom(y, w, h, rotate) {
        RowsMembersForward(y, w, h, rotate, a);
      }
      if exists i: nat, j: nat :: DrawnFrom(y, i, j, w, h, rotate, a) {
        RowsMembersBackward(y, w, h, rotate, a);
      }
    } else {
      forall i: nat, j: nat ensures !DrawnFrom(y, i, j, w, h, rotate, a) {
        NthBelow(y, YStep(h), i, 2 * h);
      }
    }
  }

  lemma RowsMembersForward(y: int, w: nat, h: nat, rotate: (int, int) -> (int, int), a: Anchor)
    requires w >= 3 && h >= 3 && y < 2 * h
    requires a in RowFrom(-(w as int), y, w, h, rotate) || a in RowsFrom(y + YStep(h), w, h, rotate)
    requires var next := y + YStep(h);
             a in RowsFrom(next, w, h, rotate) ==> exists i: nat, j: nat :: DrawnFrom(next, i, j, w, h, rotate, a)
    ensures exists i: nat, j: nat :: DrawnFrom(y, i, j, w, h, rotate, a)
  {
    var next := y + YStep(h);
    if a in RowFrom(-(w as int), y, w, h, rotate) {
      RowMembers(-(w as int), y, w, h, rotate, a);
      var j: nat :| ColumnHit(-(w as int), j, y, w, h, rotate, a);
      FirstRowDrawn(y, j, w, h, rotate, a);
    } else {
      var i: nat, j: nat :| DrawnFrom(next, i, j, w, h, rotate, a);
      DrawnFromShift(y, i, j, w, h, rotate, a);
    }
  }

  lemma RowsMembersBackward(y: int, w: nat, h: nat, rotate: (int, int) -> (int, int), a: Anchor)
    requires w >= 3 && h >= 3 && y < 2 * h
    requires exists i: nat, j: nat :: DrawnFrom(y, i, j, w, h, rotate, a)
    requires var next := y + YStep(h);
             (exists i: nat, j: nat :: DrawnFrom(next, i, j, w, h, rotate, a)) ==> a in RowsFrom(next, w, h, rotate)
    ensures a in RowFrom(-(w as int), y, w, h, rotate) || a in RowsFrom(y + YStep(h), w, h, rotate)
  {
    var i: nat, j: nat :| DrawnFrom(y, i, j, w, h, rotate, a);
    if i > 0 {
      DrawnFromShift(y, i - 1, j, w, h, rotate, a);
    } else {
      FirstRowDrawn(y, j, w, h, rotate, a);
      RowMembers(-(w as int), y, w, h, rotate, a);
    }
  }

  lemma RowsFromSplit(y: int, w: nat, h: nat, rotate: (int, int) -> (int, int), a: Anchor)
    requires w >= 3 && h >= 3 && y < 2 * h
    ensures a in RowsFrom(y, w, h, rotate) <==> a in RowFrom(-(w as int), y, w, h, rotate) || a in RowsFrom(y + YStep(h), w, h, rotate)
  {
  }

  /** Row `i + 1` counted from `y` is row `i` counted from the next row. */
  lemma DrawnFromShift(y: int, i: nat, j: nat, w: nat, h: nat, rotate: (int, int) -> (int, int), a: Anchor)
    ensures DrawnFrom(y, i + 1, j, w, h, rotate, a) == DrawnFrom(y + YStep(h), i, j, w, h, rotate, a)
  {
    assert Nth(y, YStep(h), i + 1) == Nth(y + YStep(h), YStep(h), i);
  }

  /** Row 0 counted from `y` is row `y` itself. */
  lemma FirstRowDrawn(y: int, j: nat, w: nat, h: nat, rotate: (int, int) -> (int, int), a: Anchor)
    ensures DrawnFrom(y, 0, j, w, h, rotate, a) <==> y < 2 * h && ColumnHit(-(w as int), j, y, w, h, rotate, a)
  {
    assert Nth(y, YStep(h), 0) == y;
  }

  lemma NthBelow(start: int, step: nat, k: nat, bound: int)
    requires start >= bound
    ensures Nth(start, step, k) >= bound
  {
  }

  /**
   * What the grid walk draws, independently of how the loops run: an
   * anchor is drawn exactly when some grid point `(-w + j * XStep(w),
   * -h + i * YStep(h))` with `x < 2w` and `y < 2h` turns onto it, and it
   * lies inside the bounds.
   */
  lemma PlacementMembers(w: nat, h: nat, rotate: (int, int) -> (int, int), a: Anchor)
    requires w >= 3 && h >= 3
    ensures a in Placement(w, h, rotate) <==> exists i: nat, j: nat :: GridHit(i, j, w, h, rotate, a)
  {
    RowsMembers(-(h as int), w, h, rotate, a);
    if a in Placement(w, h, rotate) {
      var i: nat, j: nat :| DrawnFrom(-(h as int), i, j, w, h, rotate, a);
      assert GridHit(i, j, w, h, rotate, a);
    }
  }

  /**
   * Grid point `(-w + j * XStep(w), -h + i * YStep(h))` lies in the walk
   * (below `2w` and `2h`) and turns onto `a` inside the bounds.
   */
  predicate GridHit(i: nat, j: nat, w: nat, h: nat, rotate: (int, int) -> (int, int), a: Anchor) {
    DrawnFrom(-(h as int), i, j, w, h, rotate, a)
  }

  /** Whatever the rotation, every drawn anchor is clear of the right and bottom margins and strictly inside the image. */
  lemma PlacementInBounds(w: nat, h: nat, rotate: (int, int) -> (int, int))
    requires w >= 3 && h >= 3
    ensures forall a :: a in Placement(w, h, rotate) ==> 0 < a.x < w - 100 && 0 < a.y < h - 30
  {
    forall a | a in Placement(w, h, rotate) ensures InBounds(a, w, h) {
      PlacementMembers(w, h, rotate, a);
    }
  }

  /** An image no wider than 101 or no taller than 31 pixels receives no diagonal text at all. */
  lemma SmallImageUnmarked(w: nat, h: nat, rotate: (int, int) -> (int, int))
    requires w >= 3 && h >= 3 && (w <= 101 || h <= 31)
    ensures Placement(w, h, rotate) == []
  {
    PlacementInBounds(w, h, rotate);
    NoMemberEmpty(Placement(w, h, rotate));
  }

  lemma NoMemberEmpty(s: seq<Anchor>)
    ensures (forall a :: a !in s) ==> s == []
  {
    if s != [] {
      assert s[0] in s;
    }
  }
}
