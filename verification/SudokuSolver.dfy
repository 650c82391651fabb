/** The dancing-links solver: building the mesh of a board, covering, uncovering and the backtracking search, all in
  place on the node array.  Pointers are indices into the array; the null pointer is NIL. */
module SudokuSolver {
  import opened Mesh
  import opened MeshBuild
  import opened SudokuRules
  import opened SudokuBuild

  // The digits already seen among the first m cells, house by house.
  ghost predicate MarkedUpTo(seen: array2<bool>, h: House, b: Board, m: int)
    reads seen
  {
    && seen.Length0 == CELLS && seen.Length1 == 10
    && forall u, v :: 0 <= u < 9 && 0 <= v < 10 ==> (seen[u, v] <==> HoldsBelow(b, h, u, v, m))
  }

  ghost predicate Marked(seen: array2<bool>, h: House, b: Board)
    reads seen
  {
    && seen.Length0 == CELLS && seen.Length1 == 10
    && forall u, v :: 0 <= u < 9 && 0 <= v < 10 ==> (seen[u, v] <==> Holds(b, h, u, v))
  }

  lemma MarkedAt(seen: array2<bool>, h: House, b: Board, u: int, v: int)
    requires Marked(seen, h, b) && 0 <= u < 9 && 0 <= v < 10
    ensures seen.Length0 == CELLS && seen.Length1 == 10 && (seen[u, v] <==> Holds(b, h, u, v))
  {
  }

  class SudokuSolver {
    const nodes: array<Node>
    const board: array<int>
    const columns: array<int>
    var curNode: int
    var stack: seq<int>

    // What the construction has spelled out so far.
    ghost var sh: Shape
    ghost var st: State
    ghost var hd: map<int, int>
    ghost var cellOf: map<int, int>
    ghost var digitOf: map<int, int>

    ghost predicate Sized()
      reads this
    {
      nodes.Length == MAX_NODES && columns.Length == MAX_COLUMNS && board.Length == CELLS && columns != board
    }

    // The mesh is whole except for the nodes in `openNodes`, and columns_ holds the headers.
    ghost predicate Growing(openNodes: set<int>)
      reads this, nodes, columns
    {
      Sized() && Grown(nodes[..], columns[..], sh, st, curNode, hd, openNodes)
    }

    // The mesh of the whole board: well formed, nothing covered, and an encoding of b.
    ghost predicate Built(b: Board)
      reads this, nodes, columns
    {
      && Sized() && Good(sh, st) && nodes[..] == st.s && Open(st) == sh.heads && sh.root == 0 && stack == []
      && curNode <= MAX_NODES && Encodes(sh, b, hd, cellOf, digitOf) && AllNamed(sh, cellOf, digitOf, CELLS)
    }

    constructor (inout: array<int>)
      requires inout.Length == CELLS && IsBoard(inout[..])
      ensures board == inout && fresh(nodes) && fresh(columns) && nodes.Length == 3241
      ensures Built(inout[..])
    {
      board := inout;
      nodes := new Node[MAX_NODES](_ => Node(0, 0, 0, 0, 0, 0, 0));
      columns := new int[MAX_COLUMNS](_ => NIL);
      curNode := 1;
      stack := [];
      sh := Shape(0, {}, map[], map[], map[]);
      hd, cellOf, digitOf := map[], map[], map[];
      new;
      st := State(nodes[..], [0], map[]);
      GrownStart(nodes[..], columns[..]);
      hide Grown;
      BuildMesh();
    }

    method BuildMesh()
      requires Growing({}) && IsBoard(board[..]) && curNode == 1 && hd == map[] && sh.row == map[] && stack == []
      modifies nodes, columns, `curNode, `sh, `st, `hd, `cellOf, `digitOf
      ensures Built(board[..])
    {
      hide Grown, Good, Encodes, AllNamed, Wanted, RowsUpTo, Marked, WantedUpTo, IsBoard;
      var rows, cols, boxes := MarkGivens();
      AppendCells();
      AppendHouses(rows, cols, boxes);
      AppendRows(rows, cols, boxes);
      GrownDone(nodes[..], columns[..], sh, st, curNode, hd, board[..], cellOf, digitOf);
    }

    method MarkGivens() returns (rows: array2<bool>, cols: array2<bool>, boxes: array2<bool>)
      requires board.Length == CELLS && IsBoard(board[..])
      ensures fresh(rows) && fresh(cols) && fresh(boxes)
      ensures Marked(rows, Row, board[..]) && Marked(cols, Column, board[..]) && Marked(boxes, Box, board[..])
    {
      rows := new bool[CELLS, 10]((_, _) => false);
      cols := new bool[CELLS, 10]((_, _) => false);
      boxes := new bool[CELLS, 10]((_, _) => false);
      ghost var b := board[..];
      for i := 0 to CELLS
        invariant MarkedUpTo(rows, Row, b, i) && MarkedUpTo(cols, Column, b, i) && MarkedUpTo(boxes, Box, b, i)
      {
        HouseRange(Row, i);
        HouseRange(Column, i);
        HouseRange(Box, i);
        HoldsBelowNext(b, i);
        hide HoldsBelow;
        var row := i / 9;
        var col := i % 9;
        var box := row / 3 * 3 + col / 3;
        var val := board[i];
        rows[row, val] := true;
        cols[col, val] := true;
        boxes[box, val] := true;
      }
      HoldsBelowAll(b);
      hide HoldsBelow, Holds;
    }

    // new_column and put_left(root_, c): header c becomes the last open column, named n.
    method AppendColumn(n: int)
      requires Growing({}) && 0 <= n < MAX_COLUMNS && n !in hd && curNode < MAX_NODES
      modifies nodes, columns, `curNode, `sh, `st, `hd
      ensures Growing({}) && curNode == old(curNode) + 1 && hd == old(hd)[n := old(curNode)]
      ensures sh.row == old(sh.row)
    {
      GrownColumn(nodes[..], columns[..], sh, st, curNode, hd, n);
      hide Grown, WithHead, PutLeft;
      var c := curNode;
      curNode := curNode + 1;
      nodes[c] := Node(c, c, c, c, c, n, 0);
      InsertLeft(0, c);
      columns[n] := c;
      sh, st, hd := WithHead(sh, c), State(nodes[..], st.head + [c], st.ring[c := [c]]), hd[n := c];
    }

    // put_left
    method InsertLeft(oldNode: int, nnew: int)
      requires 0 <= oldNode < nodes.Length && 0 <= nnew < nodes.Length && 0 <= nodes[oldNode].left < nodes.Length && oldNode != nnew
      modifies nodes
      ensures nodes[..] == PutLeft(old(nodes[..]), oldNode, nnew)
    {
      nodes[nnew] := nodes[nnew].(left := nodes[oldNode].left);
      nodes[nnew] := nodes[nnew].(right := oldNode);
      nodes[nodes[oldNode].left] := nodes[nodes[oldNode].left].(right := nnew);
      nodes[oldNode] := nodes[oldNode].(left := nnew);
    }

    // put_up
    method InsertUp(c: int, nnew: int)
      requires 0 <= c < nodes.Length && 0 <= nnew < nodes.Length && 0 <= nodes[c].up < nodes.Length && c != nnew
      modifies nodes
      ensures nodes[..] == PutUp(old(nodes[..]), c, nnew)
    {
      nodes[nnew] := nodes[nnew].(up := nodes[c].up);
      nodes[nnew] := nodes[nnew].(down := c);
      nodes[nodes[c].up] := nodes[nodes[c].up].(down := nnew);
      nodes[c] := nodes[c].(up := nnew);
      nodes[c] := nodes[c].(size := nodes[c].size + 1);
      nodes[nnew] := nodes[nnew].(col := c);
    }

    method AppendCells()
      requires Growing({}) && IsBoard(board[..]) && curNode == 1 && hd == map[] && sh.row == map[]
      modifies nodes, columns, `curNode, `sh, `st, `hd
      ensures Growing({}) && curNode <= 82 && sh.row == map[]
      ensures forall name :: name in hd <==> WantedUpTo(board[..], name, 81, 0)
    {
      ghost var b := board[..];
      hide Grown, WantedUpTo;
      assert forall name :: !WantedUpTo(b, name, 0, 0) by {
        forall name ensures !WantedUpTo(b, name, 0, 0) { WantedStart(b, name); }
      }
      for i := 0 to CELLS
        invariant Growing({}) && board[..] == b && curNode <= 1 + i && sh.row == map[]
        invariant forall name :: name in hd <==> WantedUpTo(b, name, i, 0)
      {
        forall name
          ensures WantedUpTo(b, name, i + 1, 0) <==> WantedUpTo(b, name, i, 0) || (name == i && b[i] == 0)
          ensures !WantedUpTo(b, i, i, 0)
        {
          WantedCellNext(b, name, i);
        }
        if board[i] == 0 {
          AppendColumn(i);
        }
      }
    }

    // One of the three conditional append_column calls of the constructor.
    method AppendHouse(h: House, u: int, v: int, given: bool)
      requires Growing({}) && IsBoard(board[..]) && 0 <= u < 9 && 1 <= v <= 9 && curNode < MAX_NODES
      requires given <==> Holds(board[..], h, u, v)
      requires forall name :: name in hd <==> WantedUpTo(board[..], name, 81, Turn(h, u, v))
      modifies nodes, columns, `curNode, `sh, `st, `hd
      ensures Growing({}) && curNode <= old(curNode) + 1 && sh.row == old(sh.row)
      ensures forall name :: name in hd <==> WantedUpTo(board[..], name, 81, Turn(h, u, v) + 1)
    {
      ghost var b := board[..];
      forall name
        ensures WantedUpTo(b, name, 81, Turn(h, u, v) + 1) <==>
                WantedUpTo(b, name, 81, Turn(h, u, v)) || (name == HouseName(h, u, v) && !given)
        ensures !WantedUpTo(b, HouseName(h, u, v), 81, Turn(h, u, v)) && 100 < HouseName(h, u, v) < 400
      {
        WantedHouseNext(b, h, u, v, name);
      }
      hide Grown, WantedUpTo, HouseName, Turn;
      if !given {
        AppendColumn(HouseName(h, u, v));
      }
    }

    method AppendHouses(rows: array2<bool>, cols: array2<bool>, boxes: array2<bool>)
      requires Growing({}) && IsBoard(board[..]) && curNode <= 82 && sh.row == map[]
      requires Marked(rows, Row, board[..]) && Marked(cols, Column, board[..]) && Marked(boxes, Box, board[..])
      requires forall name :: name in hd <==> WantedUpTo(board[..], name, 81, 0)
      modifies nodes, columns, `curNode, `sh, `st, `hd
      ensures Growing({}) && curNode <= 325 && sh.row == map[]
      ensures forall name :: name in hd <==> Wanted(board[..], name)
    {
      ghost var b := board[..];
      assert |b| == 81;
      hide Grown, WantedUpTo, Wanted, IsBoard, Marked;
      for i := 0 to 9
        invariant Growing({}) && board[..] == b && curNode <= 82 + 27 * i && sh.row == map[]
        invariant forall name :: name in hd <==> WantedUpTo(b, name, 81, 27 * i)
      {
        AppendDigits(i, rows, cols, boxes);
      }
      forall name ensures WantedUpTo(b, name, 81, 243) <==> Wanted(b, name) { WantedAll(b, name); }
    }

    // The digit loop for row, column and box number i.
    method AppendDigits(i: int, rows: array2<bool>, cols: array2<bool>, boxes: array2<bool>)
      requires Growing({}) && IsBoard(board[..]) && 0 <= i < 9 && curNode <= 82 + 27 * i
      requires Marked(rows, Row, board[..]) && Marked(cols, Column, board[..]) && Marked(boxes, Box, board[..])
      requires forall name :: name in hd <==> WantedUpTo(board[..], name, 81, 27 * i)
      modifies nodes, columns, `curNode, `sh, `st, `hd
      ensures Growing({}) && curNode <= 82 + 27 * (i + 1) && sh.row == old(sh.row)
      ensures forall name :: name in hd <==> WantedUpTo(board[..], name, 81, 27 * (i + 1))
    {
      hide Grown, WantedUpTo, IsBoard, Holds, Marked, Turn;
      TurnAt(i);
      for v := 1 to 10
        invariant Growing({}) && board[..] == old(board[..]) && curNode <= 82 + 27 * i + 3 * (v - 1) && sh.row == old(sh.row)
        invariant forall name :: name in hd <==> WantedUpTo(board[..], name, 81, 27 * i + 3 * (v - 1))
      {
        MarkedAt(rows, Row, board[..], i, v);
        AppendHouse(Row, i, v, rows[i, v]);
        MarkedAt(cols, Column, board[..], i, v);
        AppendHouse(Column, i, v, cols[i, v]);
        MarkedAt(boxes, Box, board[..], i, v);
        AppendHouse(Box, i, v, boxes[i, v]);
      }
    }

    // new_row: a lone node at the bottom of the column called name.
    method NewRow(name: int, ghost openNodes: set<int>) returns (r: int)
      requires Growing(openNodes) && name in hd && curNode < MAX_NODES
      modifies nodes, `curNode, `sh, `st
      ensures r == old(curNode) && Growing(openNodes + {r}) && curNode == r + 1
      ensures sh == WithNode(old(sh), r, hd[name], name)
      ensures LoneFrom(old(nodes[..]), nodes[..], r)
    {
      hide Grown, WithNode, PutUp, LoneFrom;
      GrownNode(nodes[..], columns[..], sh, st, curNode, hd, openNodes, name);
      var c := columns[name];
      r := curNode;
      curNode := curNode + 1;
      nodes[r] := Node(r, r, r, r, c, name, 0);
      InsertUp(c, r);
      sh, st := WithNode(sh, r, c, name), State(nodes[..], st.head, st.ring[c := st.ring[c] + [r]]);
    }

    method AppendRows(rows: array2<bool>, cols: array2<bool>, boxes: array2<bool>)
      requires Growing({}) && IsBoard(board[..]) && curNode <= 325 && sh.row == map[]
      requires Marked(rows, Row, board[..]) && Marked(cols, Column, board[..]) && Marked(boxes, Box, board[..])
      requires forall name :: name in hd <==> Wanted(board[..], name)
      modifies nodes, `curNode, `sh, `st, `cellOf, `digitOf
      ensures Growing({}) && curNode <= MAX_NODES
      ensures RowsUpTo(sh, board[..], hd, cellOf, digitOf, 729)
    {
      ghost var b := board[..];
      assert board.Length == CELLS;
      hide Growing, RowsUpTo, Marked, Wanted, IsBoard;
      RowsNone(sh, b, hd, cellOf, digitOf);
      for i := 0 to CELLS
        invariant Growing({}) && board[..] == b && curNode <= 325 + 36 * i
        invariant RowsUpTo(sh, b, hd, cellOf, digitOf, i * 9)
      {
        if board[i] == 0 {
          AppendCellRows(i, rows, cols, boxes);
        } else {
          RowsSkipCell(sh, b, hd, cellOf, digitOf, i);
        }
      }
    }

    // The nine attempts to give empty cell i a row.
    method AppendCellRows(i: int, rows: array2<bool>, cols: array2<bool>, boxes: array2<bool>)
      requires Growing({}) && IsBoard(board[..]) && 0 <= i < CELLS && board[i] == 0 && curNode <= 325 + 36 * i
      requires Marked(rows, Row, board[..]) && Marked(cols, Column, board[..]) && Marked(boxes, Box, board[..])
      requires forall name :: name in hd <==> Wanted(board[..], name)
      requires RowsUpTo(sh, board[..], hd, cellOf, digitOf, i * 9)
      modifies nodes, `curNode, `sh, `st, `cellOf, `digitOf
      ensures Growing({}) && curNode <= 325 + 36 * (i + 1)
      ensures RowsUpTo(sh, board[..], hd, cellOf, digitOf, (i + 1) * 9)
    {
      ghost var b := board[..];
      var row := i / 9;
      var col := i % 9;
      var box := row / 3 * 3 + col / 3;
      HouseRange(Row, i);
      HouseRange(Column, i);
      HouseRange(Box, i);
      assert row == HouseOf(Row, i) && col == HouseOf(Column, i) && box == HouseOf(Box, i);
      hide Growing, RowsUpTo, Wanted, IsBoard, HouseOf, Marked;
      for v := 1 to 10
        invariant Growing({}) && board[..] == b && curNode <= 325 + 36 * i + 4 * (v - 1)
        invariant RowsUpTo(sh, b, hd, cellOf, digitOf, i * 9 + v - 1)
      {
        AppendIfAllowed(i, v, row, col, box, rows, cols, boxes);
      }
    }

    method AppendIfAllowed(i: int, v: int, row: int, col: int, box: int, rows: array2<bool>, cols: array2<bool>, boxes: array2<bool>)
      requires Growing({}) && IsBoard(board[..]) && 0 <= i < board.Length && board[i] == 0 && 1 <= v <= 9 && curNode + 4 <= MAX_NODES
      requires row == HouseOf(Row, i) && col == HouseOf(Column, i) && box == HouseOf(Box, i)
      requires 0 <= row < 9 && 0 <= col < 9 && 0 <= box < 9
      requires Marked(rows, Row, board[..]) && Marked(cols, Column, board[..]) && Marked(boxes, Box, board[..])
      requires forall name :: name in hd <==> Wanted(board[..], name)
      requires RowsUpTo(sh, board[..], hd, cellOf, digitOf, i * 9 + v - 1)
      modifies nodes, `curNode, `sh, `st, `cellOf, `digitOf
      ensures Growing({}) && curNode <= old(curNode) + 4
      ensures RowsUpTo(sh, board[..], hd, cellOf, digitOf, i * 9 + v)
    {
      hide Growing, Wanted, RowsUpTo, Marked, Holds, Allowed, HouseOf, IsBoard;
      AllowedHere(board[..], i, v);
      MarkedAt(rows, Row, board[..], row, v);
      MarkedAt(cols, Column, board[..], col, v);
      MarkedAt(boxes, Box, board[..], box, v);
      if !(rows[row, v] || cols[col, v] || boxes[box, v]) {
        AppendRow(i, v, row, col, box);
      } else {
        RowsSkip(sh, board[..], hd, cellOf, digitOf, i, v);
      }
    }

    // Four nodes for digit v in cell i, closed to a row.
    method AppendRow(i: int, v: int, row: int, col: int, box: int)
      requires Growing({}) && IsBoard(board[..]) && Allowed(board[..], i, v) && curNode + 4 <= MAX_NODES
      requires row == HouseOf(Row, i) && col == HouseOf(Column, i) && box == HouseOf(Box, i)
      requires forall name :: name in hd <==> Wanted(board[..], name)
      requires RowsUpTo(sh, board[..], hd, cellOf, digitOf, i * 9 + v - 1)
      modifies nodes, `curNode, `sh, `st, `cellOf, `digitOf
      ensures Growing({}) && curNode == old(curNode) + 4
      ensures RowsUpTo(sh, board[..], hd, cellOf, digitOf, i * 9 + v)
    {
      hide Grown, RowsUpTo, Wanted, Allowed, NameAt, Used, Distinct, IsBoard, HouseName, WithNode, LoneFrom, RowAdded, HouseOf;
      ghost var n := curNode;
      ghost var nm := [i, HouseName(Row, row, v), HouseName(Column, col, v), HouseName(Box, box, v)];
      RowNamesWanted(board[..], i, v, nm);
      ghost var c := HeadersOf(hd, nm);
      GrownRow(nodes[..], columns[..], sh, st, n, hd, nm, c);
      RowsNext(sh, board[..], hd, cellOf, digitOf, n, c, nm, i, v);
      FourNodes(i, HouseName(Row, row, v), HouseName(Column, col, v), HouseName(Box, box, v), c, nm);
      cellOf, digitOf := FourOf(cellOf, n, i), FourOf(digitOf, n, v);
    }

    // The four new_row and three put_left calls.
    method FourNodes(a0: int, a1: int, a2: int, a3: int, ghost c: seq<int>, ghost nm: seq<int>)
      requires Growing({}) && curNode + 4 <= MAX_NODES && curNode > 0
      requires nm == [a0, a1, a2, a3] && |c| == 4 && Distinct(c)
      requires forall k :: 0 <= k < 4 ==> nm[k] in hd && c[k] == hd[nm[k]]
      modifies nodes, `curNode, `sh, `st
      ensures Growing({}) && curNode == old(curNode) + 4 && sh == RowAdded(old(sh), old(curNode), c, nm)
    {
      hide Grown, WithNode, LoneFrom, RowAdded, Distinct;
      ghost var n, sh0, s0 := curNode, sh, nodes[..];
      assert nm[0] in hd && nm[1] in hd && nm[2] in hd && nm[3] in hd;
      assert {} + {n} == {n} && {n} + {n + 1} == {n, n + 1} && {n, n + 1} + {n + 2} == {n, n + 1, n + 2};
      assert {n, n + 1, n + 2} + {n + 3} == {n, n + 1, n + 2, n + 3};
      var n0 := NewRow(a0, {});
      ghost var s1 := nodes[..];
      var nr := NewRow(a1, {n});
      ghost var s2 := nodes[..];
      var nc := NewRow(a2, {n, n + 1});
      ghost var s3 := nodes[..];
      var nb := NewRow(a3, {n, n + 1, n + 2});
      LoneFour(s0, s1, s2, s3, nodes[..], n);
      CloseRow(n0, c, nm, sh0);
    }

    // The three put_left calls that close a row.
    method CloseRow(n: int, ghost c: seq<int>, ghost nm: seq<int>, ghost sh0: Shape)
      requires Growing({n, n + 1, n + 2, n + 3}) && curNode == n + 4 && n > 0
      requires |c| == 4 && |nm| == 4 && Distinct(c)
      requires sh == WithNode(WithNode(WithNode(WithNode(sh0, n, c[0], nm[0]), n + 1, c[1], nm[1]), n + 2, c[2], nm[2]), n + 3, c[3], nm[3])
      requires n + 3 < nodes.Length && nodes[n].left == n && nodes[n].right == n
      modifies nodes, `sh, `st
      ensures Growing({}) && sh == RowAdded(sh0, n, c, nm)
    {
      hide Grown, PutLeft, Joined, WithNode, RowAdded, WithRow, Distinct;
      RowAddedSteps(sh0, n, c, nm);
      GrownJoin(nodes[..], columns[..], sh, st, hd, n);
      JoinSteps(nodes[..], n);
      InsertLeft(n, n + 1);
      InsertLeft(n, n + 2);
      InsertLeft(n, n + 3);
      sh, st := WithRow(sh, n), State(nodes[..], st.head, st.ring);
    }

    // ---------------------------------------------------------------- cover and uncover

    // The two assignments that take header c out of the header ring.
    method UnlinkOne(c: int)
      requires SideBounded(nodes[..], c)
      modifies nodes
      ensures nodes[..] == Unlink(old(nodes[..]), c)
    {
      nodes[nodes[c].right] := nodes[nodes[c].right].(left := nodes[c].left);
      nodes[nodes[c].left] := nodes[nodes[c].left].(right := nodes[c].right);
    }

    method RelinkOne(c: int)
      requires SideBounded(nodes[..], c)
      modifies nodes
      ensures nodes[..] == Relink(old(nodes[..]), c)
    {
      nodes[nodes[c].right] := nodes[nodes[c].right].(left := c);
      nodes[nodes[c].left] := nodes[nodes[c].left].(right := c);
    }

    // The three assignments that take node j out of its vertical ring.
    method HideOne(j: int)
      requires Bounded(nodes[..], j)
      modifies nodes
      ensures nodes[..] == Hide(old(nodes[..]), j)
    {
      nodes[nodes[j].down] := nodes[nodes[j].down].(up := nodes[j].up);
      nodes[nodes[j].up] := nodes[nodes[j].up].(down := nodes[j].down);
      nodes[nodes[j].col] := nodes[nodes[j].col].(size := nodes[nodes[j].col].size - 1);
    }

    method ShowOne(j: int)
      requires Bounded(nodes[..], j)
      modifies nodes
      ensures nodes[..] == Show(old(nodes[..]), j)
    {
      nodes[nodes[j].col] := nodes[nodes[j].col].(size := nodes[nodes[j].col].size + 1);
      nodes[nodes[j].down] := nodes[nodes[j].down].(up := j);
      nodes[nodes[j].up] := nodes[nodes[j].up].(down := j);
    }

    // The inner loop of Cover: row i of column c loses its nodes in the other columns.
    method HideRow(row: int, ghost c: int, ghost i: int, ghost sh: Shape, ghost st: State)
      requires Good(sh, st) && c in Open(st) && 0 <= i < |ColumnNodes(st, c)| && row == ColumnNodes(st, c)[i]
      requires nodes[..] == RowsHidden(sh, st, c, i).s
      modifies nodes
      ensures nodes[..] == RowsHidden(sh, st, c, i + 1).s
    {
      hide Wf, Good, RowsHidden, NodesHidden, Others, Hide, Bounded, Open;
      ghost var ys := Others(sh, row);
      NodesHiddenEnds(sh, st, c, i);
      RowPosition(sh, st, c, i, 0, 0);
      ghost var r := [row] + ys;
      var j := nodes[row].right;
      ghost var k := 0;
      while j != row
        invariant 0 <= k <= |ys| && j == After(r, k)
        invariant nodes[..] == NodesHidden(sh, st, c, i, k).s
        decreases |ys| - k
      {
        RowPosition(sh, st, c, i, k, k);
        NodeStep(sh, st, c, i, k);
        HideOne(j);
        k := k + 1;
        RowPosition(sh, st, c, i, k, k);
        j := nodes[j].right;
      }
      RowPosition(sh, st, c, i, k, k);
    }

    // The inner loop of Uncover, right to left.
    method ShowRow(row: int, ghost c: int, ghost i: int, ghost sh: Shape, ghost st: State)
      requires Good(sh, st) && c in Open(st) && 0 <= i < |ColumnNodes(st, c)| && row == ColumnNodes(st, c)[i]
      requires nodes[..] == RowsHidden(sh, st, c, i + 1).s
      modifies nodes
      ensures nodes[..] == RowsHidden(sh, st, c, i).s
    {
      hide Wf, Good, RowsHidden, NodesHidden, Others, Show, Hide, Bounded, Open;
      ghost var ys := Others(sh, row);
      ghost var k := |ys|;
      NodesHiddenEnds(sh, st, c, i);
      RowPosition(sh, st, c, i, k, k);
      ghost var r := [row] + ys;
      var j := nodes[row].left;
      while j != row
        invariant 0 <= k <= |ys| && j == r[k]
        invariant nodes[..] == NodesHidden(sh, st, c, i, k).s
        decreases k
      {
        RowPosition(sh, st, c, i, k, k);
        k := k - 1;
        NodeStep(sh, st, c, i, k);
        ShowOne(j);
        RowPosition(sh, st, c, i, k, k);
        j := nodes[j].left;
      }
      RowPosition(sh, st, c, i, k, k);
    }

    // The outer loop of Cover, top down.
    method HideRows(c: int, ghost sh: Shape, ghost st: State)
      requires Good(sh, st) && c in Open(st) && nodes[..] == RowsHidden(sh, st, c, 0).s
      modifies nodes
      ensures nodes[..] == RowsHidden(sh, st, c, |ColumnNodes(st, c)|).s
    {
      hide Wf, Good, RowsHidden, Open, ColumnNodes;
      ghost var xs := ColumnNodes(st, c);
      ColumnPosition(sh, st, c, 0, 0);
      var row := nodes[c].down;
      ghost var i := 0;
      while row != c
        invariant 0 <= i <= |xs| && row == After([c] + xs, i)
        invariant nodes[..] == RowsHidden(sh, st, c, i).s
        decreases |xs| - i
      {
        ColumnPosition(sh, st, c, i, i);
        HideRow(row, c, i, sh, st);
        i := i + 1;
        ColumnPosition(sh, st, c, i, i);
        row := nodes[row].down;
      }
      ColumnPosition(sh, st, c, i, i);
    }

    // Takes column c out of the header ring and every row through it out of the other columns.
    method Cover(c: int, ghost sh: Shape, ghost st: State)
      requires Good(sh, st) && nodes[..] == st.s && c in Open(st)
      modifies nodes
      ensures nodes[..] == Mesh.Cover(sh, st, c).s
    {
      HeadStep(sh, st, c);
      hide Wf, Good, Mesh.Cover, RowsHidden, Open, ColumnNodes, Unlink, SideBounded;
      UnlinkOne(c);
      HideRows(c, sh, st);
    }

    // The outer loop of Uncover, bottom up.
    method ShowRows(c: int, ghost sh: Shape, ghost st: State)
      requires Good(sh, st) && c in Open(st)
      requires nodes[..] == RowsHidden(sh, st, c, |ColumnNodes(st, c)|).s
      modifies nodes
      ensures nodes[..] == RowsHidden(sh, st, c, 0).s
    {
      hide Wf, Good, RowsHidden, Open, ColumnNodes;
      ghost var xs := ColumnNodes(st, c);
      ghost var i := |xs|;
      ColumnPosition(sh, st, c, i, i);
      var row := nodes[c].up;
      while row != c
        invariant 0 <= i <= |xs| && row == ([c] + xs)[i]
        invariant nodes[..] == RowsHidden(sh, st, c, i).s
        decreases i
      {
        ColumnPosition(sh, st, c, i, i);
        i := i - 1;
        ShowRow(row, c, i, sh, st);
        ColumnPosition(sh, st, c, i, i);
        row := nodes[row].up;
      }
      ColumnPosition(sh, st, c, i, i);
    }

    // Undoes Cover(c): the rows come back bottom up, their nodes right to left, the header last.
    method Uncover(c: int, ghost sh: Shape, ghost st: State)
      requires Good(sh, st) && c in Open(st) && nodes[..] == Mesh.Cover(sh, st, c).s
      modifies nodes
      ensures nodes[..] == st.s
    {
      HeadStep(sh, st, c);
      hide Wf, Good, Mesh.Cover, RowsHidden, Open, ColumnNodes, Relink, SideBounded, Unlink;
      ShowRows(c, sh, st);
      RelinkOne(c);
    }
  
    // The first column of smallest size, or the first one of size at most 1.
    method GetMinColumn(ghost sh: Shape, ghost st: State) returns (c: int)
      requires Wf(sh, st) && nodes[..] == st.s && |st.head| > 1 && sh.root == 0
      ensures c in Open(st) && 0 <= c < |st.s|
      ensures forall d :: d in Open(st) ==> 0 <= d < |st.s| && (st.s[c].size <= st.s[d].size || st.s[c].size <= 1)
    {
      hide Wf, Open;
      ghost var h := st.head;
      HeadAt(sh, st, 0);
      HeadAt(sh, st, 1);
      c := nodes[0].right;
      var minSize := nodes[c].size;
      if minSize > 1 {
        var cc := nodes[c].right;
        ghost var k := 2;
        while cc != 0
          invariant 2 <= k <= |h| && cc == After(h, k - 1)
          invariant c in Open(st) && 0 <= c < |st.s| && st.s[c].size == minSize
          invariant forall i :: 1 <= i < k && 0 <= h[i] < |st.s| ==> minSize <= st.s[h[i]].size
          decreases |h| - k
        {
          HeadAt(sh, st, k - 1);
          HeadAt(sh, st, k);
          if minSize > nodes[cc].size {
            c := cc;
            minSize := nodes[cc].size;
            if minSize <= 1 {
              break;
            }
          }
          cc := nodes[cc].right;
          k := k + 1;
        }
        HeadAt(sh, st, k - 1);
      }
      SmallestOpen(sh, st, minSize);
    }
  
    // Covers the other columns of the row, left to right.
    method CoverOthers(row: int, ghost sh: Shape, ghost st: State)
      requires Good(sh, st) && nodes[..] == st.s && row in sh.row && OpenRow(sh, st, Others(sh, row))
      modifies nodes
      ensures nodes[..] == CoverCols(sh, st, Others(sh, row)).s
    {
      hide Good, OpenRow, CoverCols, Others, Open, Mesh.Cover;
      ghost var ys := Others(sh, row);
      assert CoverCols(sh, st, ys[..0]) == st by { CoverColsNone(sh, st); }
      RowAt(sh, st, row, ys, 0, 0);
      var j := nodes[row].right;
      ghost var k := 0;
      while j != row
        invariant 0 <= k <= |ys| && j == After([row] + ys, k)
        invariant nodes[..] == CoverCols(sh, st, ys[..k]).s
        decreases |ys| - k
      {
        RowAt(sh, st, row, ys, k, k);
        RowAt(sh, st, row, ys, k, k + 1);
        CoverColsStep(sh, st, ys, k);
        Cover(nodes[j].col, sh, CoverCols(sh, st, ys[..k]));
        k := k + 1;
        RowAt(sh, st, row, ys, k, k);
        j := nodes[j].right;
      }
      RowAt(sh, st, row, ys, k, k);
      assert ys[..k] == ys;
    }

    // Uncovers them, right to left.
    method UncoverOthers(row: int, ghost sh: Shape, ghost st: State)
      requires Good(sh, st) && row in sh.row && OpenRow(sh, st, Others(sh, row))
      requires nodes[..] == CoverCols(sh, st, Others(sh, row)).s
      modifies nodes
      ensures nodes[..] == st.s
    {
      hide Good, OpenRow, CoverCols, Others, Open, Mesh.Cover;
      ghost var ys := Others(sh, row);
      ghost var k := |ys|;
      assert ys[..k] == ys;
      RowAt(sh, st, row, ys, k, k);
      var j := nodes[row].left;
      while j != row
        invariant 0 <= k <= |ys| && j == ([row] + ys)[k]
        invariant nodes[..] == CoverCols(sh, st, ys[..k]).s
        decreases k
      {
        RowAt(sh, st, row, ys, k, k);
        k := k - 1;
        CoverColsStep(sh, st, ys, k);
        Uncover(nodes[j].col, sh, CoverCols(sh, st, ys[..k]));
        RowAt(sh, st, row, ys, k, k);
        j := nodes[j].left;
      }
      RowAt(sh, st, row, ys, k, k);
      assert CoverCols(sh, st, ys[..0]) == st by { CoverColsNone(sh, st); }
    }

    // Reads one row off the mesh: the cell it fills and the digit it puts there.
    method ReadRow(start: int, ghost sh: Shape, ghost st: State, ghost wantCell: int, ghost wantDigit: int)
      returns (cell: int, digit: int)
      requires Wf(sh, st) && nodes[..] == st.s && Named(sh, start, wantCell, wantDigit)
      ensures cell == wantCell && digit == wantDigit
    {
      hide Wf, Others;
      ghost var r := [start] + Others(sh, start);
      var n := start;
      cell, digit := -1, -1;
      ghost var p := 0;
      RowNames(sh, st, start, wantCell, wantDigit, 0);
      while cell == -1 || digit == -1
        invariant 0 <= p <= |r| && n == (if p < |r| then r[p] else start)
        invariant cell in {-1, wantCell} && digit in {-1, wantDigit}
        invariant forall i :: 0 <= i < p && r[i] in sh.name ==> if sh.name[r[i]] < 100 then cell == wantCell else digit == wantDigit
        decreases |r| - p
      {
        if p == |r| {
          RowNamesBoth(sh, st, start, wantCell, wantDigit);
          assert false;
        }
        RowNames(sh, st, start, wantCell, wantDigit, p);
        if nodes[n].name < 100 {
          cell := nodes[n].name;
        } else {
          digit := nodes[n].name % 10;
        }
        n := nodes[n].right;
        p := p + 1;
      }
    }
  
    // Writes the digits of the picked rows to the board.
    method WriteBoard(ghost sh: Shape, ghost st: State, ghost cellOf: map<int, int>, ghost digitOf: map<int, int>)
      requires Wf(sh, st) && nodes[..] == st.s && AllNamed(sh, cellOf, digitOf, board.Length)
      requires forall x :: x in stack ==> x in sh.row
      modifies board
      ensures board[..] == Written(old(board[..]), cellOf, digitOf, stack)
    {
      hide Wf, Named;
      ghost var b := board[..];
      for i := 0 to |stack|
        invariant board[..] == Written(b, cellOf, digitOf, stack[..i])
      {
        var n := stack[i];
        assert n in sh.row;
        var cell, digit := ReadRow(n, sh, st, cellOf[n], digitOf[n]);
        board[cell] := digit;
        assert stack[..i + 1][..i] == stack[..i];
      }
      assert stack[..|stack|] == stack;
    }

    // The search.  False: there is no exact cover of the open columns, and the mesh, the stack and the board are
    // as they were.  True: the rows pushed are one, and the board holds the digits of every row on the stack.
    method Solve(ghost sh: Shape, ghost st: State, ghost cellOf: map<int, int>, ghost digitOf: map<int, int>)
      returns (found: bool)
      requires Good(sh, st) && nodes[..] == st.s && sh.root == 0 && AllNamed(sh, cellOf, digitOf, board.Length)
      requires forall x :: x in stack ==> x in sh.row
      modifies nodes, board, `stack
      ensures !found ==> nodes[..] == old(nodes[..]) && stack == old(stack) && board[..] == old(board[..])
      ensures !found ==> !HasExactCover(sh, Open(st))
      ensures found ==> |old(stack)| <= |stack| && stack[..|old(stack)|] == old(stack)
      ensures found ==> ExactCover(sh, Open(st), stack[|old(stack)|..])
      ensures found ==> board[..] == Written(old(board[..]), cellOf, digitOf, stack)
      decreases |st.head|, 3
    {
      assert Wf(sh, st);
      hide *;
      NothingOpen(sh, st);
      if nodes[0].left == 0 {
        WriteBoard(sh, st, cellOf, digitOf);
        assert stack[..|stack|] == stack && stack[|stack|..] == [];
        found := true;
      } else {
        found := Branch(sh, st, cellOf, digitOf);
      }
    }

    // The whole search on a freshly built solver.
    method Run(ghost b: Board) returns (found: bool)
      requires Built(b) && IsBoard(b) && board[..] == b
      modifies nodes, board, `stack
      ensures found <==> exists g :: Completes(b, g)
      ensures found ==> Completes(b, board[..])
    {
      EncodingIsExact(sh, b, hd, cellOf, digitOf);
      hide Good, Encodes, ExactCover, Completes, Written, AllNamed, IsBoard;
      found := Solve(sh, st, cellOf, digitOf);
      if found {
        assert stack[0..] == stack;
        CoverSolves(sh, b, hd, cellOf, digitOf, stack);
      }
    }

    // The part of the search where some column is open.
    method Branch(ghost sh: Shape, ghost st: State, ghost cellOf: map<int, int>, ghost digitOf: map<int, int>)
      returns (found: bool)
      requires Good(sh, st) && nodes[..] == st.s && sh.root == 0 && AllNamed(sh, cellOf, digitOf, board.Length)
      requires |st.head| > 1
      requires forall x :: x in stack ==> x in sh.row
      modifies nodes, board, `stack
      ensures !found ==> nodes[..] == old(nodes[..]) && stack == old(stack) && board[..] == old(board[..])
      ensures !found ==> !HasExactCover(sh, Open(st))
      ensures found ==> |old(stack)| <= |stack| && stack[..|old(stack)|] == old(stack)
      ensures found ==> ExactCover(sh, Open(st), stack[|old(stack)|..])
      ensures found ==> board[..] == Written(old(board[..]), cellOf, digitOf, stack)
      decreases |st.head|, 2
    {
      assert Wf(sh, st);
      hide *;
      var c := GetMinColumn(sh, st);
      Cover(c, sh, st);
      found := TryRows(c, sh, st, cellOf, digitOf);
      if !found {
        NoRowNoCover(sh, st, c);
        Uncover(c, sh, st);
      }
    }

    // The search's loop over the rows of the covered column c.
    method TryRows(c: int, ghost sh: Shape, ghost st: State, ghost cellOf: map<int, int>, ghost digitOf: map<int, int>)
      returns (found: bool)
      requires Good(sh, st) && sh.root == 0 && AllNamed(sh, cellOf, digitOf, board.Length)
      requires c in Open(st) && nodes[..] == Mesh.Cover(sh, st, c).s
      requires forall x :: x in stack ==> x in sh.row
      modifies nodes, board, `stack
      ensures !found ==> nodes[..] == old(nodes[..]) && stack == old(stack) && board[..] == old(board[..])
      ensures !found ==> forall x :: x in ColumnNodes(st, c) ==> !HasExactCover(sh, Open(st) - Cols(sh, x))
      ensures found ==> |old(stack)| <= |stack| && stack[..|old(stack)|] == old(stack)
      ensures found ==> ExactCover(sh, Open(st), stack[|old(stack)|..])
      ensures found ==> board[..] == Written(old(board[..]), cellOf, digitOf, stack)
      decreases |st.head|, 1
    {
      hide *;
      CoveredPosition(sh, st, c, 0);
      var row := nodes[c].down;
      ghost var i := 0;
      while row != c
        invariant 0 <= i <= |ColumnNodes(st, c)| && row == After([c] + ColumnNodes(st, c), i)
        invariant nodes[..] == Mesh.Cover(sh, st, c).s && stack == old(stack) && board[..] == old(board[..])
        invariant forall x :: x in ColumnNodes(st, c)[..i] ==> !HasExactCover(sh, Open(st) - Cols(sh, x))
        decreases |ColumnNodes(st, c)| - i
      {
        CoveredPosition(sh, st, c, i);
        AfterAt(c, ColumnNodes(st, c), i);
        found := TryRow(row, c, sh, st, cellOf, digitOf);
        if found {
          return true;
        }
        i := i + 1;
        CoveredPosition(sh, st, c, i);
        row := nodes[row].down;
      }
      CoveredPosition(sh, st, c, i);
      return false;
    }

    // The body of the search's loop: one row of the covered column c.
    method TryRow(row: int, ghost c: int, ghost sh: Shape, ghost st: State,
                  ghost cellOf: map<int, int>, ghost digitOf: map<int, int>)
      returns (found: bool)
      requires Good(sh, st) && sh.root == 0 && AllNamed(sh, cellOf, digitOf, board.Length)
      requires c in Open(st) && row in ColumnNodes(st, c) && nodes[..] == Mesh.Cover(sh, st, c).s
      requires forall x :: x in stack ==> x in sh.row
      modifies nodes, board, `stack
      ensures !found ==> nodes[..] == old(nodes[..]) && stack == old(stack) && board[..] == old(board[..])
      ensures !found ==> !HasExactCover(sh, Open(st) - Cols(sh, row))
      ensures found ==> |old(stack)| <= |stack| && stack[..|old(stack)|] == old(stack)
      ensures found ==> ExactCover(sh, Open(st), stack[|old(stack)|..])
      ensures found ==> board[..] == Written(old(board[..]), cellOf, digitOf, stack)
      decreases |st.head|, 0
    {
      hide Wf, Good, Open, OpenRow, CoverCols, Others, Cols, ColumnNodes, ExactCover, HasExactCover, AllNamed, Mesh.Cover, Written;
      ghost var st1 := Mesh.Cover(sh, st, c);
      RowTaken(sh, st, c, row);
      stack := stack + [row];
      CoverOthers(row, sh, st1);
      found := Solve(sh, CoverCols(sh, st1, Others(sh, row)), cellOf, digitOf);
      if found {
        assert stack[|old(stack)|..] == [row] + stack[|old(stack)| + 1..];
        assert stack[..|old(stack)|] == stack[..|old(stack)| + 1][..|old(stack)|];
        return true;
      }
      stack := stack[..|stack| - 1];
      UncoverOthers(row, sh, st1);
    }
  }

  // ---------------------------------------------------------------- the puzzle as text

  ghost predicate AllDigits(puzzle: string) {
    forall i :: 0 <= i < |puzzle| ==> '0' <= puzzle[i] <= '9'
  }

  ghost function BoardOf(puzzle: string): Board {
    seq(|puzzle|, i requires 0 <= i < |puzzle| => puzzle[i] as int - '0' as int)
  }

  // A completed grid exactly when the givens can be completed, and that grid is a completion.
  method SolveSudoku(puzzle: string) returns (result: string)
    requires |puzzle| == CELLS
    ensures !AllDigits(puzzle) ==> result == "NoSolution"
    ensures AllDigits(puzzle) && (exists g :: Completes(BoardOf(puzzle), g)) ==> |result| == CELLS && Completes(BoardOf(puzzle), BoardOf(result))
    ensures AllDigits(puzzle) && !(exists g :: Completes(BoardOf(puzzle), g)) ==> result == "NoSolution"
  {
    result := "NoSolution";
    var board := new int[CELLS](_ => 0);
    var valid := true;
    for i := 0 to CELLS
      invariant valid <==> forall k :: 0 <= k < i ==> '0' <= puzzle[k] <= '9'
      invariant forall k :: 0 <= k < i ==> board[k] == puzzle[k] as int - '0' as int
    {
      board[i] := puzzle[i] as int - '0' as int;
      valid := valid && 0 <= board[i] <= 9;
    }
    if valid {
      assert board[..] == BoardOf(puzzle);
      var s := new SudokuSolver(board);
      var found := s.Run(BoardOf(puzzle));
      if found {
        result := TextOf(board);
      }
    }
  }

  method TextOf(board: array<int>) returns (result: string)
    requires board.Length == CELLS && ValidGrid(board[..])
    ensures |result| == CELLS && BoardOf(result) == board[..]
  {
    result := "";
    for i := 0 to CELLS
      invariant |result| == i && forall k :: 0 <= k < i ==> result[k] as int == board[k] + '0' as int
    {
      assert 1 <= board[..][i] <= 9;
      result := result + [(board[i] + '0' as int) as char];
    }
  }
}
