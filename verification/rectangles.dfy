/**
 * Counting the cells of a rectangular grid, for the bounds on how many
 * cells a trace or a search can touch.
 */
module Rectangles {
  /** A cell `(x, y)`: column, then row. */
  type Cell = (int, int)

  /** The cells `(x, y)` with `0 <= x < w` in row `y`. */
  function RowCells(w: nat, y: int): set<Cell>
  {
    if w == 0 then {} else RowCells(w - 1, y) + {(w - 1, y)}
  }

  lemma {:induction false} RowCellsSize(w: nat, y: int)
    ensures |RowCells(w, y)| == w
  {
    if w > 0 {
      RowCellsSize(w - 1, y);
      RowCellsHas(w - 1, y);
    }
  }

  lemma {:induction false} RowCellsHas(w: nat, y: int)
    ensures forall c :: c in RowCells(w, y) <==> 0 <= c.0 < w && c.1 == y
  {
    if w > 0 {
      RowCellsHas(w - 1, y);
    }
  }

  /** The cells of a `w` by `h` grid. */
  function Rectangle(w: nat, h: nat): (r: set<Cell>)
  {
    if h == 0 then {} else Rectangle(w, h - 1) + RowCells(w, h - 1)
  }

  lemma {:induction false} RectangleHas(w: nat, h: nat)
    ensures forall c :: c in Rectangle(w, h) <==> 0 <= c.0 < w && 0 <= c.1 < h
  {
    if h > 0 {
      RectangleHas(w, h - 1);
      RowCellsHas(w, h - 1);
      forall c
        ensures c in Rectangle(w, h) <==> 0 <= c.0 < w && 0 <= c.1 < h
      {
        assert c in Rectangle(w, h) <==> c in Rectangle(w, h - 1) || c in RowCells(w, h - 1);
      }
    }
  }

  /** The last row is apart from the rows above it. */
  lemma RectangleSplit(w: nat, h: nat)
    requires h > 0
    ensures Rectangle(w, h) == Rectangle(w, h - 1) + RowCells(w, h - 1)
    ensures Rectangle(w, h - 1) !! RowCells(w, h - 1)
  {
    RectangleHas(w, h - 1);
    RowCellsHas(w, h - 1);
  }

  lemma {:induction false} RectangleSize(w: nat, h: nat)
    ensures |Rectangle(w, h)| == w * h
  {
    if h > 0 {
      RectangleSize(w, h - 1);
      RectangleSplit(w, h);
      DisjointSize(Rectangle(w, h - 1), RowCells(w, h - 1));
      RowCellsSize(w, h - 1);
      Distribute(w, h);
    }
  }

  lemma Distribute(w: nat, h: nat)
    requires h > 0
    ensures w * h == w * (h - 1) + w
  {
  }

  lemma DisjointSize<T>(a: set<T>, b: set<T>)
    requires a !! b
    ensures |a + b| == |a| + |b|
  {
    if a != {} {
      var x :| x in a;
      DisjointSize(a - {x}, b);
      assert a + b == (a - {x} + b) + {x};
    }
  }

  lemma SubsetSize<T>(a: set<T>, b: set<T>)
    requires a <= b
    ensures |a| <= |b|
  {
    assert b == a + (b - a);
    assert a * (b - a) == {};
  }

  /** Cells inside a `w` by `h` grid number at most `w * h`. */
  lemma RectangleBounds(cells: set<Cell>, w: nat, h: nat)
    requires forall c :: c in cells ==> 0 <= c.0 < w && 0 <= c.1 < h
    ensures |cells| <= w * h
  {
    RectangleHas(w, h);
    SubsetSize(cells, Rectangle(w, h));
    RectangleSize(w, h);
  }
}
