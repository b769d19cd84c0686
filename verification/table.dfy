/** The shape of the table `renderIssueTable` sends to the renderer, apart
    from what its cells hold: a header row with one header cell per label,
    then one body row per issue with one cell per column. The cell contents
    are given as a grid (one sequence of events per body row), so that where
    each piece sits and how the blocks nest can be stated once for every
    table. */
module TableLayout {
  import opened Php
  import opened DokuRenderer

  /** Each entry of `contents` between `open` and `close`. */
  function Cells(open: Event, close: Event, contents: seq<Event>): (r: seq<Event>)
    ensures |r| == 3 * |contents|
  {
    if contents == [] then []
    else Cells(open, close, contents[..|contents| - 1]) + [open, contents[|contents| - 1], close]
  }

  /** A body row: the row open, one cell per entry, the row close. */
  function BodyRow(contents: seq<Event>): seq<Event>
  {
    [RowOpen] + Cells(CellOpen, CellClose, contents) + [RowClose]
  }

  /** The header row: the row open, one header cell per label, the row close. */
  function HeaderRow(labels: seq<Event>): seq<Event>
  {
    [RowOpen] + Cells(HeaderOpen, HeaderClose, labels) + [RowClose]
  }

  /** The body rows, one per row of the grid, in order. */
  function Rows(grid: seq<seq<Event>>): seq<Event>
  {
    if grid == [] then []
    else Rows(grid[..|grid| - 1]) + BodyRow(grid[|grid| - 1])
  }

  /** The whole table: as many columns as labels, the header, the body. */
  function Layout(labels: seq<Event>, grid: seq<seq<Event>>): seq<Event>
  {
    [TableOpen(|labels|), TheadOpen] + HeaderRow(labels) + [TheadClose, TbodyOpen]
    + Rows(grid) + [TbodyClose, TableClose]
  }

  /** Every row of the grid has `width` entries. */
  predicate Rectangular(grid: seq<seq<Event>>, width: nat)
  {
    forall i :: 0 <= i < |grid| ==> |grid[i]| == width
  }

  /** How many events a body row of `width` cells takes. */
  function RowWidth(width: nat): nat
  {
    3 * width + 2
  }

  /** Where body row `i` starts in a table of `width` columns. */
  function RowStart(width: nat, i: nat): nat
  {
    3 * width + 6 + i * RowWidth(width)
  }

  /** Where body cell `j` of row `i` starts in a table of `width` columns. */
  function CellStart(width: nat, i: nat, j: nat): nat
  {
    RowStart(width, i) + (1 + 3 * j)
  }

  // ---------------------------------------------------------------------
  // Emitting piece by piece

  /** One more entry adds one more cell at the end. */
  lemma CellsStep(open: Event, close: Event, contents: seq<Event>, k: nat)
    requires k < |contents|
    ensures Cells(open, close, contents[..k + 1]) == Cells(open, close, contents[..k]) + [open, contents[k], close]
  {
    assert contents[..k + 1][..k] == contents[..k];
  }

  /** One more grid row adds one more body row at the end. */
  lemma RowsStep(grid: seq<seq<Event>>, i: nat)
    requires i < |grid|
    ensures Rows(grid[..i + 1]) == Rows(grid[..i]) + BodyRow(grid[i])
  {
    assert grid[..i + 1][..i] == grid[..i];
  }

  lemma ConcatAssoc<T>(x: seq<T>, y: seq<T>, z: seq<T>)
    ensures (x + y) + z == x + (y + z)
  {
  }

  // ---------------------------------------------------------------------
  // Where each piece sits

  /** Entry `j` sits at `3 * j` among the cells, between its open and close. */
  lemma {:induction false} CellsAt(open: Event, close: Event, contents: seq<Event>, j: nat)
    requires j < |contents|
    ensures Cells(open, close, contents)[3 * j..3 * j + 3] == [open, contents[j], close]
  {
    var init, s := contents[..|contents| - 1], Cells(open, close, contents);
    var last := [open, contents[|contents| - 1], close];
    assert s == Cells(open, close, init) + last;
    if j < |contents| - 1 {
      CellsAt(open, close, init, j);
      SliceOfFront(Cells(open, close, init), last, 3 * j, 3 * j + 3);
    } else {
      SliceOfBack(Cells(open, close, init), last);
    }
  }

  lemma {:induction false} RowsLength(grid: seq<seq<Event>>, width: nat)
    requires Rectangular(grid, width)
    ensures |Rows(grid)| == |grid| * RowWidth(width)
  {
    if grid != [] {
      var k := |grid|;
      RowsLength(grid[..k - 1], width);
      MulStep(k - 1, RowWidth(width));
    }
  }

  lemma MulStep(k: nat, n: nat)
    ensures k * n + n == (k + 1) * n
  {
  }

  /** The body rows of two grids, one after the other. */
  lemma {:induction false} RowsAppend(a: seq<seq<Event>>, b: seq<seq<Event>>)
    ensures Rows(a + b) == Rows(a) + Rows(b)
    decreases |b|
  {
    if b == [] {
      assert a + b == a;
    } else {
      var front, last := b[..|b| - 1], b[|b| - 1];
      assert (a + b)[..|a + b| - 1] == a + front;
      assert (a + b)[|a + b| - 1] == last;
      RowsAppend(a, front);
      ConcatAssoc(Rows(a), Rows(front), BodyRow(last));
    }
  }

  /** Body row `i` comes right after the rows before it. */
  lemma RowsAt(grid: seq<seq<Event>>, i: nat)
    requires i < |grid|
    ensures var lo := |Rows(grid[..i])|;
      && lo + |BodyRow(grid[i])| <= |Rows(grid)|
      && Rows(grid)[lo..lo + |BodyRow(grid[i])|] == BodyRow(grid[i])
  {
    var pre, post := grid[..i], grid[i + 1..];
    assert grid == pre + [grid[i]] + post;
    RowsAppend(pre + [grid[i]], post);
    RowsAppend(pre, [grid[i]]);
    assert Rows([grid[i]]) == BodyRow(grid[i]);
    SliceOfMiddle(Rows(pre), BodyRow(grid[i]), Rows(post), 0, |BodyRow(grid[i])|);
  }

  /** A slice inside the front part of a concatenation is a slice of that part. */
  lemma SliceOfFront<T>(a: seq<T>, b: seq<T>, x: nat, y: nat)
    requires x <= y <= |a|
    ensures (a + b)[x..y] == a[x..y]
  {
  }

  /** The back part of a concatenation, as a slice of it. */
  lemma SliceOfBack<T>(a: seq<T>, b: seq<T>)
    ensures (a + b)[|a|..|a| + |b|] == b
  {
  }

  /** A slice inside the middle part of a concatenation is a slice of that part. */
  lemma SliceOfMiddle<T>(a: seq<T>, b: seq<T>, c: seq<T>, x: nat, y: nat)
    requires x <= y <= |b|
    ensures (a + b + c)[|a| + x..|a| + y] == b[x..y]
  {
    var s, t := (a + b + c)[|a| + x..|a| + y], b[x..y];
    forall k | 0 <= k < y - x
      ensures s[k] == t[k]
    {
    }
  }

  /** A block that `b` holds at `lo` sits at `start` in `a + b + c`. */
  lemma BlockIn<T>(s: seq<T>, a: seq<T>, b: seq<T>, c: seq<T>, lo: nat, block: seq<T>, start: nat, len: nat)
    requires s == a + b + c
    requires lo + |block| <= |b| && b[lo..lo + |block|] == block
    requires start == |a| + lo && len == |block|
    ensures start + len <= |s| && s[start..start + len] == block
  {
    var t, u := s[start..start + len], b[lo..lo + |block|];
    forall k | 0 <= k < len
      ensures t[k] == block[k]
    {
      assert u[k] == b[lo + k];
    }
  }

  /** A slice of the middle part of a block that `s` holds at `p`, between
      its first and last element, is a slice of `s`. */
  lemma SliceOfWrapped<T>(s: seq<T>, p: nat, n: nat, first: T, b: seq<T>, last: T, x: nat, len: nat, start: nat)
    requires n == |b| + 2 && p + n <= |s| && s[p..p + n] == [first] + b + [last]
    requires x + len <= |b| && start == p + 1 + x
    ensures start + len <= |s| && s[start..start + len] == b[x..x + len]
  {
    var whole, piece, t := s[p..p + n], b[x..x + len], s[start..start + len];
    forall k | 0 <= k < len
      ensures t[k] == piece[k]
    {
      assert t[k] == whole[1 + x + k];
    }
  }

  /** Header cell `j` holds label `j`, between its open and close. */
  lemma LayoutHeaderAt(labels: seq<Event>, grid: seq<seq<Event>>, j: nat)
    requires j < |labels|
    ensures 3 + 3 * j + 3 <= |Layout(labels, grid)|
    ensures Layout(labels, grid)[3 + 3 * j..3 + 3 * j + 3] == [HeaderOpen, labels[j], HeaderClose]
  {
    var a := [TableOpen(|labels|), TheadOpen, RowOpen];
    var c := [RowClose, TheadClose, TbodyOpen] + Rows(grid) + [TbodyClose, TableClose];
    CellsAt(HeaderOpen, HeaderClose, labels, j);
    assert Layout(labels, grid) == a + Cells(HeaderOpen, HeaderClose, labels) + c;
    SliceOfMiddle(a, Cells(HeaderOpen, HeaderClose, labels), c, 3 * j, 3 * j + 3);
  }

  /** Body row `i` of a table whose rows all have one entry per label
      starts at `RowStart`. */
  lemma LayoutRowAt(labels: seq<Event>, grid: seq<seq<Event>>, i: nat)
    requires Rectangular(grid, |labels|) && i < |grid|
    ensures RowStart(|labels|, i) + RowWidth(|labels|) <= |Layout(labels, grid)|
    ensures Layout(labels, grid)[RowStart(|labels|, i)..RowStart(|labels|, i) + RowWidth(|labels|)]
      == BodyRow(grid[i])
  {
    RowsLength(grid[..i], |labels|);
    RowsAt(grid, i);
    BlockIn(Layout(labels, grid),
            [TableOpen(|labels|), TheadOpen] + HeaderRow(labels) + [TheadClose, TbodyOpen],
            Rows(grid), [TbodyClose, TableClose],
            |Rows(grid[..i])|, BodyRow(grid[i]),
            RowStart(|labels|, i), RowWidth(|labels|));
  }

  /** Body cell `j` of row `i` holds `grid[i][j]`, between its open and close. */
  lemma LayoutCellAt(labels: seq<Event>, grid: seq<seq<Event>>, i: nat, j: nat)
    requires Rectangular(grid, |labels|) && i < |grid| && j < |labels|
    ensures CellStart(|labels|, i, j) + 3 <= |Layout(labels, grid)|
    ensures Layout(labels, grid)[CellStart(|labels|, i, j)..CellStart(|labels|, i, j) + 3]
      == [CellOpen, grid[i][j], CellClose]
  {
    LayoutRowAt(labels, grid, i);
    CellsAt(CellOpen, CellClose, grid[i], j);
    SliceOfWrapped(Layout(labels, grid), RowStart(|labels|, i), RowWidth(|labels|),
                   RowOpen, Cells(CellOpen, CellClose, grid[i]), RowClose, 3 * j, 3, CellStart(|labels|, i, j));
  }

  // ---------------------------------------------------------------------
  // Nesting

  /** Wrapping leaves in block `b`, one after the other, leaves the
      renderer's open blocks as they were. */
  lemma {:induction false} CellsNeutral(open: Event, close: Event, b: Block, contents: seq<Event>, stack: seq<Block>)
    requires Opens(open) == Some(b) && Closes(close) == Some(b)
    requires forall k :: 0 <= k < |contents| ==> Leaf(contents[k])
    ensures Nesting(Cells(open, close, contents), stack) == Some(stack)
  {
    if contents != [] {
      var init, last := contents[..|contents| - 1], contents[|contents| - 1];
      CellsNeutral(open, close, b, init, stack);
      WrappedLeaf(open, last, close, b, stack);
      NeutralAppend(Cells(open, close, init), [open, last, close], stack);
    }
  }

  lemma {:induction false} RowsNeutral(grid: seq<seq<Event>>, stack: seq<Block>)
    requires forall i, k :: 0 <= i < |grid| && 0 <= k < |grid[i]| ==> Leaf(grid[i][k])
    ensures Nesting(Rows(grid), stack) == Some(stack)
  {
    if grid != [] {
      var init, last := grid[..|grid| - 1], grid[|grid| - 1];
      RowsNeutral(init, stack);
      BodyRowNeutral(last, stack);
      NeutralAppend(Rows(init), BodyRow(last), stack);
    }
  }

  lemma BodyRowNeutral(contents: seq<Event>, stack: seq<Block>)
    requires forall k :: 0 <= k < |contents| ==> Leaf(contents[k])
    ensures Nesting(BodyRow(contents), stack) == Some(stack)
  {
    CellsNeutral(CellOpen, CellClose, Cell, contents, stack + [Row]);
    Wrapped(RowOpen, Cells(CellOpen, CellClose, contents), RowClose, Row, stack);
  }

  /** The table head: the header row inside its head block. */
  lemma HeadNeutral(labels: seq<Event>, stack: seq<Block>)
    requires forall k :: 0 <= k < |labels| ==> Leaf(labels[k])
    ensures Nesting([TheadOpen] + HeaderRow(labels) + [TheadClose], stack) == Some(stack)
  {
    CellsNeutral(HeaderOpen, HeaderClose, Header, labels, stack + [Thead] + [Row]);
    Wrapped(RowOpen, Cells(HeaderOpen, HeaderClose, labels), RowClose, Row, stack + [Thead]);
    Wrapped(TheadOpen, HeaderRow(labels), TheadClose, Thead, stack);
  }

  /** The table body: the body rows inside their body block. */
  lemma BodyNeutral(grid: seq<seq<Event>>, stack: seq<Block>)
    requires forall i, k :: 0 <= i < |grid| && 0 <= k < |grid[i]| ==> Leaf(grid[i][k])
    ensures Nesting([TbodyOpen] + Rows(grid) + [TbodyClose], stack) == Some(stack)
  {
    RowsNeutral(grid, stack + [Tbody]);
    Wrapped(TbodyOpen, Rows(grid), TbodyClose, Tbody, stack);
  }

  /** Every block a table of leaves opens is closed again, innermost first. */
  lemma LayoutBalanced(labels: seq<Event>, grid: seq<seq<Event>>)
    requires forall k :: 0 <= k < |labels| ==> Leaf(labels[k])
    requires forall i, k :: 0 <= i < |grid| && 0 <= k < |grid[i]| ==> Leaf(grid[i][k])
    ensures Balanced(Layout(labels, grid))
  {
    var head := [TheadOpen] + HeaderRow(labels) + [TheadClose];
    var body := [TbodyOpen] + Rows(grid) + [TbodyClose];
    HeadNeutral(labels, [Table]);
    BodyNeutral(grid, [Table]);
    NeutralAppend(head, body, [Table]);
    assert [] + [Table] == [Table];
    Wrapped(TableOpen(|labels|), head + body, TableClose, Table, []);
    TableRegroup(TableOpen(|labels|), TheadOpen, TheadClose, TbodyOpen, TbodyClose, TableClose,
            HeaderRow(labels), Rows(grid));
  }

  /** How the table's flat event list groups into its nested blocks. */
  lemma TableRegroup<T>(a: T, b: T, e: T, f: T, g: T, h: T, header: seq<T>, body: seq<T>)
    ensures [a, b] + header + [e, f] + body + [g, h]
      == [a] + (([b] + header + [e]) + ([f] + body + [g])) + [h]
  {
  }
}
