/**
 * Unity's Texture2D as far as the wizard uses it (GetPixel, SetPixel,
 * SetPixels) and FlipTexture, which mirrors a texture top to bottom
 * (CameraToSkyboxWizard.cs:115-127). Pixels are of an opaque type P:
 * nothing here looks at a colour's channels.
 */
module Textures {

  /**
   * The pixels of a texture column by column: g[x][y] is the pixel at
   * (x, y), x counted from the left and y from the bottom.
   */
  type Grid<P> = seq<seq<P>>

  /** g is a width-by-height grid. */
  predicate IsGrid<P>(g: Grid<P>, width: nat, height: nat)
  {
    |g| == width && forall x :: 0 <= x < |g| ==> |g[x]| == height
  }

  /** Two grids of the same size with the same pixel everywhere are equal. */
  lemma GridExtensionality<P>(a: Grid<P>, b: Grid<P>, width: nat, height: nat)
    requires IsGrid(a, width, height) && IsGrid(b, width, height)
    requires forall x, y :: 0 <= x < width && 0 <= y < height ==> a[x][y] == b[x][y]
    ensures a == b
  {
    forall x | 0 <= x < width ensures a[x] == b[x] {
      assert forall y :: 0 <= y < height ==> a[x][y] == b[x][y];
    }
  }

  /** In Unity's flat pixel layout the pixel (x, y) sits at index x + y * width. */
  lemma FlatIndexInRange(x: nat, y: nat, width: nat, height: nat)
    requires x < width && y < height
    ensures x + y * width < width * height
  {
    assert y * width <= (height - 1) * width by {
      MultiplyMonotone(y, height - 1, width);
    }
    assert (height - 1) * width == height * width - width;
  }

  lemma MultiplyMonotone(a: nat, b: nat, c: nat)
    requires a <= b
    ensures a * c <= b * c
  {
    assert b * c == a * c + (b - a) * c;
  }

  /** The pixel (x, y) of a flat, row-after-row pixel array. */
  function FlatPixel<P>(colors: seq<P>, width: nat, height: nat, x: nat, y: nat): P
    requires |colors| == width * height && x < width && y < height
  {
    FlatIndexInRange(x, y, width, height);
    colors[x + y * width]
  }

  /** The grid a flat pixel array (the layout of GetPixels and SetPixels) describes. */
  function FromFlat<P>(colors: seq<P>, width: nat, height: nat): (g: Grid<P>)
    requires |colors| == width * height
    ensures IsGrid(g, width, height)
  {
    seq(width, x requires 0 <= x < width =>
      seq(height, y requires 0 <= y < height => FlatPixel(colors, width, height, x, y)))
  }

  /** The grid a flat pixel array describes when read from its top row down. */
  function FromFlatMirrored<P>(colors: seq<P>, width: nat, height: nat): (g: Grid<P>)
    requires |colors| == width * height
    ensures IsGrid(g, width, height)
  {
    seq(width, x requires 0 <= x < width =>
      seq(height, y requires 0 <= y < height => FlatPixel(colors, width, height, x, height - 1 - y)))
  }

  /** The grid's pixel (x, y) is the flat array's element x + y * width. */
  lemma FromFlatAt<P>(colors: seq<P>, width: nat, height: nat, x: nat, y: nat)
    requires |colors| == width * height && x < width && y < height
    ensures x + y * width < |colors|
    ensures FromFlat(colors, width, height)[x][y] == colors[x + y * width]
  {
    FlatIndexInRange(x, y, width, height);
  }

  /** A column read from top to bottom. */
  function Reversed<P>(column: seq<P>): (r: seq<P>)
    ensures |r| == |column|
  {
    seq(|column|, y requires 0 <= y < |column| => column[|column| - 1 - y])
  }

  /** Reversing a column only reorders it. */
  lemma {:induction false} ReversedPreservesMultiset<P>(column: seq<P>)
    ensures multiset(Reversed(column)) == multiset(column)
  {
    if column != [] {
      var n := |column|;
      var init := column[..n - 1];
      ReversedPreservesMultiset(init);
      assert Reversed(column) == [column[n - 1]] + Reversed(init);
      assert column == init + [column[n - 1]];
    }
  }

  /** The grid mirrored top to bottom: every column reversed. */
  function FlipVertical<P>(g: Grid<P>): (r: Grid<P>)
    ensures |r| == |g|
    ensures forall x :: 0 <= x < |g| ==> |r[x]| == |g[x]|
  {
    seq(|g|, x requires 0 <= x < |g| => Reversed(g[x]))
  }

  /** Flipping keeps the size and moves the pixel at (x, y) to (x, height - 1 - y). */
  lemma FlipVerticalMoves<P>(g: Grid<P>, width: nat, height: nat)
    requires IsGrid(g, width, height)
    ensures IsGrid(FlipVertical(g), width, height)
    ensures forall x, y :: 0 <= x < width && 0 <= y < height ==>
      FlipVertical(g)[x][height - 1 - y] == g[x][y]
  {
  }

  /** Flipping twice gives back the original grid. */
  lemma FlipVerticalInvolution<P>(g: Grid<P>)
    ensures FlipVertical(FlipVertical(g)) == g
  {
    var f := FlipVertical(FlipVertical(g));
    forall x | 0 <= x < |g| ensures f[x] == g[x] {
      assert |f[x]| == |g[x]|;
      forall y | 0 <= y < |g[x]| ensures f[x][y] == g[x][y] {
        assert f[x][y] == FlipVertical(g)[x][|g[x]| - 1 - y];
      }
    }
  }

  /** All pixels of a grid, with their multiplicities. */
  function Pixels<P>(g: Grid<P>): multiset<P>
  {
    if g == [] then multiset{} else multiset(g[0]) + Pixels(g[1..])
  }

  /** Flipping moves pixels but never adds, drops or changes one. */
  lemma {:induction false} FlipVerticalPreservesPixels<P>(g: Grid<P>)
    ensures Pixels(FlipVertical(g)) == Pixels(g)
  {
    if g != [] {
      var f := FlipVertical(g);
      assert f[1..] == FlipVertical(g[1..]);
      FlipVerticalPreservesPixels(g[1..]);
      ReversedPreservesMultiset(g[0]);
    }
  }

  /** A texture: a width-by-height array of pixels, indexed [x, y]. */
  class Texture2D<P(0)> {
    const width: nat
    const height: nat
    const cells: array2<P>

    ghost predicate Valid()
      reads this
    {
      cells.Length0 == width && cells.Length1 == height
    }

    /** The texture's pixels as a value. */
    function Grid(): (g: Grid<P>)
      reads this, cells
      requires Valid()
      ensures IsGrid(g, width, height)
      ensures forall x, y :: 0 <= x < width && 0 <= y < height ==> g[x][y] == cells[x, y]
    {
      seq(width, x requires 0 <= x < width reads cells =>
        seq(height, y requires 0 <= y < height reads cells => cells[x, y]))
    }

    /** `new Texture2D(width, height, format, false)`; the engine's initial pixels are left open. */
    constructor (width: nat, height: nat)
      ensures Valid() && fresh(cells)
      ensures this.width == width && this.height == height
    {
      this.width, this.height := width, height;
      cells := new P[width, height];
    }

    function GetPixel(x: nat, y: nat): (c: P)
      reads this, cells
      requires Valid() && x < width && y < height
      ensures c == Grid()[x][y]
    {
      cells[x, y]
    }

    method SetPixel(x: nat, y: nat, c: P)
      requires Valid() && x < width && y < height
      modifies cells
      ensures Grid() == old(Grid())[x := old(Grid())[x][y := c]]
    {
      ghost var before := Grid();
      cells[x, y] := c;
      GridExtensionality(Grid(), before[x := before[x][y := c]], width, height);
    }

    /** Overwrites every pixel from a flat array in GetPixels order. */
    method SetPixels(colors: seq<P>)
      requires Valid() && |colors| == width * height
      modifies cells
      ensures Grid() == FromFlat(colors, width, height)
    {
      var g := FromFlat(colors, width, height);
      forall x, y | 0 <= x < width && 0 <= y < height {
        cells[x, y] := g[x][y];
      }
      GridExtensionality(Grid(), g, width, height);
    }
  }

  /**
   * A fresh texture of the same size holding `texture` mirrored top to
   * bottom: the nested loops copy (x, y) to (x, height - 1 - y).
   */
  method FlipTexture<P(0)>(texture: Texture2D<P>) returns (flipped: Texture2D<P>)
    requires texture.Valid()
    ensures fresh(flipped) && fresh(flipped.cells) && flipped.Valid()
    ensures flipped.width == texture.width && flipped.height == texture.height
    ensures flipped.Grid() == FlipVertical(texture.Grid())
  {
    var width := texture.width;
    var height := texture.height;
    flipped := new Texture2D(width, height);
    for x := 0 to width
      invariant flipped.Valid() && fresh(flipped.cells)
      invariant forall i, j :: 0 <= i < x && 0 <= j < height ==>
        flipped.cells[i, height - 1 - j] == texture.cells[i, j]
    {
      for y := 0 to height
        invariant forall i, j :: 0 <= i < x && 0 <= j < height ==>
          flipped.cells[i, height - 1 - j] == texture.cells[i, j]
        invariant forall j :: 0 <= j < y ==> flipped.cells[x, height - 1 - j] == texture.cells[x, j]
      {
        flipped.SetPixel(x, height - y - 1, texture.GetPixel(x, y));
      }
    }
    FlipVerticalMoves(texture.Grid(), width, height);
    forall x, y | 0 <= x < width && 0 <= y < height
      ensures flipped.Grid()[x][y] == FlipVertical(texture.Grid())[x][y]
    {
      assert flipped.cells[x, y] == texture.cells[x, height - 1 - y];
    }
    GridExtensionality(flipped.Grid(), FlipVertical(texture.Grid()), width, height);
  }
}
