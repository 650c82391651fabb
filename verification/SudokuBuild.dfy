/** How far the construction of the Sudoku mesh has come: which columns and which rows are in place. */
module SudokuBuild {
  import opened Mesh
  import opened MeshBuild
  import opened SudokuRules

  const CELLS := 81
  const MAX_NODES := 1 + 81 * 4 + 9 * 9 * 9 * 4
  const MAX_COLUMNS := 400
  const NIL := -1

  // ---------------------------------------------------------------- columns

  // The position of a house name in the order in which the constructor looks at them.
  function Turn(h: House, u: int, v: int): int {
    (u * 9 + v - 1) * 3 + match h case Row => 0 case Column => 1 case Box => 2
  }

  lemma TurnAt(u: int)
    ensures forall v :: Turn(Row, u, v) == 27 * u + 3 * (v - 1)
    ensures forall v :: Turn(Column, u, v) == 27 * u + 3 * (v - 1) + 1
    ensures forall v :: Turn(Box, u, v) == 27 * u + 3 * (v - 1) + 2
  {
  }

  ghost predicate HouseWanted(b: Board, h: House, u: int, v: int, name: int) {
    0 <= u < 9 && 1 <= v <= 9 && name == HouseName(h, u, v) && !Holds(b, h, u, v)
  }

  // Wanted names among the first `cells` cells and the first `turns` house names.
  ghost predicate WantedUpTo(b: Board, name: int, cells: int, turns: int) {
    || (0 <= name < cells && name < |b| && b[name] == 0)
    || exists h: House, u, v :: HouseWanted(b, h, u, v, name) && Turn(h, u, v) < turns
  }

  lemma WantedStart(b: Board, name: int)
    ensures !WantedUpTo(b, name, 0, 0)
  {
  }

  lemma WantedCellNext(b: Board, name: int, i: int)
    requires 0 <= i < |b|
    ensures WantedUpTo(b, name, i + 1, 0) <==> WantedUpTo(b, name, i, 0) || (name == i && b[i] == 0)
    ensures !WantedUpTo(b, i, i, 0)
  {
  }

  lemma WantedHouseNext(b: Board, h: House, u: int, v: int, name: int)
    requires |b| == 81 && 0 <= u < 9 && 1 <= v <= 9
    ensures WantedUpTo(b, name, 81, Turn(h, u, v) + 1) <==>
            WantedUpTo(b, name, 81, Turn(h, u, v)) || HouseWanted(b, h, u, v, name)
    ensures !WantedUpTo(b, HouseName(h, u, v), 81, Turn(h, u, v))
    ensures 100 < HouseName(h, u, v) < 400
  {
    NamesDiffer(h, u, v, h, u, v);
    forall h': House, u', v' | 0 <= u' < 9 && 1 <= v' <= 9
      ensures Turn(h', u', v') == Turn(h, u, v) ==> h' == h && u' == u && v' == v
      ensures HouseName(h', u', v') == HouseName(h, u, v) ==> h' == h && u' == u && v' == v
    {
      NamesDiffer(h, u, v, h', u', v');
    }
    hide HouseName, Turn, Holds;
  }

  lemma WantedAll(b: Board, name: int)
    requires |b| == 81
    ensures WantedUpTo(b, name, 81, 243) <==> Wanted(b, name)
  {
    forall h: House, u, v | 0 <= u < 9 && 1 <= v <= 9
      ensures Turn(h, u, v) < 243
    {
    }
    hide Turn, HouseName, Holds;
    if Wanted(b, name) && !(0 <= name < 81 && b[name] == 0) {
      var h: House, u, v :| 0 <= u < 9 && 1 <= v <= 9 && name == HouseName(h, u, v) && !Holds(b, h, u, v);
      assert HouseWanted(b, h, u, v, name);
    }
  }

  // `hd` names the headers made so far; no header has two names.
  ghost predicate Headed(sh: Shape, hd: map<int, int>) {
    && (forall name :: name in hd ==> 0 <= name < 400 && hd[name] in sh.heads)
    && (forall x, y :: x in hd && y in hd && x != y ==> hd[x] != hd[y])
    && (forall c :: c in sh.heads ==> exists name :: name in hd && hd[name] == c)
  }

  lemma HeadedGrows(sh: Shape, hd: map<int, int>, name: int, c: int)
    requires Headed(sh, hd) && name !in hd && 0 <= name < 400 && c !in sh.heads
    ensures Headed(WithHead(sh, c), hd[name := c])
  {
    var hd' := hd[name := c];
    forall d | d in WithHead(sh, c).heads
      ensures exists x :: x in hd' && hd'[x] == d
    {
      if d == c {
        assert hd'[name] == d;
      } else {
        var x :| x in hd && hd[x] == d;
        assert hd'[x] == d;
      }
    }
  }

  // ---------------------------------------------------------------- rows

  ghost function NameAt(i: int, v: int, k: int): int
    requires 0 <= k < 4
  {
    if k == 0 then i else
      var h := if k == 1 then Row else if k == 2 then Column else Box;
      HouseName(h, HouseOf(h, i), v)
  }

  lemma FourNames(i: int, v: int, name: int)
    ensures CoversName(i, v, name) <==> exists k :: 0 <= k < 4 && name == NameAt(i, v, k)
  {
    if CoversName(i, v, name) {
      if name == i {
        assert name == NameAt(i, v, 0);
      } else {
        var h: House :| name == HouseName(h, HouseOf(h, i), v);
        assert name == NameAt(i, v, match h case Row => 1 case Column => 2 case Box => 3);
      }
    }
  }

  lemma NamesOfRow(b: Board, i: int, v: int, k: int)
    requires |b| == 81 && Allowed(b, i, v) && 0 <= k < 4
    ensures Wanted(b, NameAt(i, v, k)) && 0 <= NameAt(i, v, k) < 400
    ensures if k == 0 then NameAt(i, v, k) == i < 100 else NameAt(i, v, k) >= 100 && NameAt(i, v, k) % 10 == v
  {
    if k > 0 {
      var h := if k == 1 then Row else if k == 2 then Column else Box;
      HouseRange(h, i);
      NamesDiffer(h, HouseOf(h, i), v, h, HouseOf(h, i), v);
    }
  }

  lemma NamesOfRowDiffer(i: int, v: int, k: int, m: int)
    requires 0 <= i < 81 && 1 <= v <= 9 && 0 <= k < m < 4
    ensures NameAt(i, v, k) != NameAt(i, v, m)
  {
    var h := if k == 1 then Row else Column;
    var h' := if m == 1 then Row else if m == 2 then Column else Box;
    HouseRange(h, i);
    HouseRange(h', i);
    NamesDiffer(h, HouseOf(h, i), v, h', HouseOf(h', i), v);
  }

  // The shape with one more row, of nodes n .. n + 3, in columns c and with names nm.
  ghost function RowAdded(sh: Shape, n: int, c: seq<int>, nm: seq<int>): Shape
    requires |c| == 4 && |nm| == 4
  {
    WithRow(WithNode(WithNode(WithNode(WithNode(sh, n, c[0], nm[0]), n + 1, c[1], nm[1]), n + 2, c[2], nm[2]), n + 3, c[3], nm[3]), n)
  }

  lemma RowAddedCols(sh: Shape, n: int, c: seq<int>, nm: seq<int>, m: int)
    requires |c| == 4 && |nm| == 4 && (forall k :: k in sh.col ==> k < n)
    requires forall k :: k in sh.row ==> forall x :: x in sh.row[k] ==> x in sh.col
    ensures m in sh.row && m < n ==> m in RowAdded(sh, n, c, nm).row && Cols(RowAdded(sh, n, c, nm), m) == Cols(sh, m)
    ensures n <= m <= n + 3 ==> Cols(RowAdded(sh, n, c, nm), m) == {c[0], c[1], c[2], c[3]}
  {
    var sh' := RowAdded(sh, n, c, nm);
    assert sh'.col == sh.col[n := c[0]][n + 1 := c[1]][n + 2 := c[2]][n + 3 := c[3]];
    if m in sh.row && m < n {
      assert sh'.row[m] == sh.row[m];
      assert forall y :: y in sh.row[m] ==> y in sh.col && y < n && sh'.col[y] == sh.col[y];
    }
    if n <= m <= n + 3 {
      assert forall y :: y in sh'.row[m] <==> n <= y <= n + 3;
      assert n in sh'.row[m] && n + 1 in sh'.row[m] && n + 2 in sh'.row[m] && n + 3 in sh'.row[m];
    }
  }

  ghost predicate RowsUpTo(sh: Shape, b: Board, hd: map<int, int>, cell: map<int, int>, digit: map<int, int>, pairs: int) {
    && (forall n :: n in sh.row ==> RowStands(sh, b, hd, cell, digit, n) && Named(sh, n, cell[n], digit[n]))
    && (forall i, v :: Allowed(b, i, v) && i * 9 + v - 1 < pairs ==> HasRow(sh, cell, digit, i, v))
  }

  ghost predicate HasRow(sh: Shape, cell: map<int, int>, digit: map<int, int>, i: int, v: int) {
    exists n :: n in sh.row && n in cell && cell[n] == i && n in digit && digit[n] == v
  }

  ghost function FourOf(m: map<int, int>, n: int, x: int): map<int, int> {
    m[n := x][n + 1 := x][n + 2 := x][n + 3 := x]
  }

  lemma RowAddedFacts(sh: Shape, n: int, c: seq<int>, nm: seq<int>)
    requires |c| == 4 && |nm| == 4
    ensures var sh' := RowAdded(sh, n, c, nm);
            && (forall m :: m in sh'.row <==> m in sh.row || n <= m <= n + 3)
            && (forall m :: m in sh.row && m < n ==> sh'.row[m] == sh.row[m])
            && (forall y :: y in sh.name && y < n ==> y in sh'.name && sh'.name[y] == sh.name[y])
            && n in sh'.name && n + 1 in sh'.name && n + 2 in sh'.name && n + 3 in sh'.name
            && sh'.name[n] == nm[0] && sh'.name[n + 1] == nm[1] && sh'.name[n + 2] == nm[2] && sh'.name[n + 3] == nm[3]
  {
  }

  lemma NewRowMembers(sh: Shape, n: int, c: seq<int>, nm: seq<int>, m: int)
    requires |c| == 4 && |nm| == 4 && n <= m <= n + 3
    ensures m in RowAdded(sh, n, c, nm).row && forall y :: y in RowAdded(sh, n, c, nm).row[m] <==> n <= y <= n + 3
  {
  }

  // The row just added stands for digit v in cell i.
  lemma NewRowStands(sh: Shape, b: Board, hd: map<int, int>, cell: map<int, int>, digit: map<int, int>,
                     n: int, c: seq<int>, nm: seq<int>, i: int, v: int, m: int)
    requires |b| == 81 && Allowed(b, i, v) && Used(sh, n, {}) && |c| == 4 && |nm| == 4
    requires forall k :: 0 <= k < 4 ==> nm[k] == NameAt(i, v, k) && nm[k] in hd && c[k] == hd[nm[k]]
    requires n <= m <= n + 3 && m in cell && m in digit && cell[m] == i && digit[m] == v
    ensures m in RowAdded(sh, n, c, nm).row
    ensures RowStands(RowAdded(sh, n, c, nm), b, hd, cell, digit, m)
  {
    hide RowAdded, Used, NameAt, Allowed, Cols, CoversName;
    RowsInCols(sh, n);
    RowAddedCols(sh, n, c, nm, m);
    NewRowMembers(sh, n, c, nm, m);
    NewRowColumns(hd, c, nm, i, v, Cols(RowAdded(sh, n, c, nm), m));
  }

  lemma NewRowColumns(hd: map<int, int>, c: seq<int>, nm: seq<int>, i: int, v: int, cols: set<int>)
    requires |c| == 4 && |nm| == 4 && cols == {c[0], c[1], c[2], c[3]}
    requires forall k :: 0 <= k < 4 ==> nm[k] == NameAt(i, v, k) && nm[k] in hd && c[k] == hd[nm[k]]
    ensures forall name :: name in hd && CoversName(i, v, name) ==> hd[name] in cols
    ensures forall d :: d in cols ==> exists name :: name in hd && hd[name] == d && CoversName(i, v, name)
  {
    hide NameAt, CoversName;
    forall name | name in hd && CoversName(i, v, name)
      ensures hd[name] in cols
    {
      FourNames(i, v, name);
    }
    forall d | d in cols
      ensures exists name :: name in hd && hd[name] == d && CoversName(i, v, name)
    {
      var k :| 0 <= k < 4 && d == c[k];
      FourNames(i, v, nm[k]);
      assert nm[k] in hd && hd[nm[k]] == d && CoversName(i, v, nm[k]);
    }
  }

  lemma RowsInCols(sh: Shape, cur: int)
    requires Used(sh, cur, {})
    ensures forall k :: k in sh.row ==> forall x :: x in sh.row[k] ==> x in sh.col && x < cur
    ensures forall k :: k in sh.col ==> k < cur
  {
    forall k, x | k in sh.row && x in sh.row[k]
      ensures x in sh.col && x < cur
    {
      assert RowOk(sh, k);
    }
  }

  lemma NewRowNamed(sh: Shape, b: Board, n: int, c: seq<int>, nm: seq<int>, i: int, v: int, m: int)
    requires |b| == 81 && Allowed(b, i, v) && |c| == 4 && |nm| == 4 && n <= m <= n + 3
    requires forall k :: 0 <= k < 4 ==> nm[k] == NameAt(i, v, k)
    ensures Named(RowAdded(sh, n, c, nm), m, i, v)
  {
    hide RowAdded, NameAt, Allowed, Wanted;
    var sh' := RowAdded(sh, n, c, nm);
    NamesOfRow(b, i, v, 0);
    NamesOfRow(b, i, v, 1);
    NamesOfRow(b, i, v, 2);
    NamesOfRow(b, i, v, 3);
    RowAddedFacts(sh, n, c, nm);
    NewRowMembers(sh, n, c, nm, m);
    assert n in sh'.row[m] && n + 1 in sh'.row[m];
  }

  lemma OldRowStands(sh: Shape, b: Board, hd: map<int, int>, cell: map<int, int>, digit: map<int, int>,
                     n: int, c: seq<int>, nm: seq<int>, cell': map<int, int>, digit': map<int, int>, m: int)
    requires Used(sh, n, {}) && m in sh.row && |c| == 4 && |nm| == 4
    requires RowStands(sh, b, hd, cell, digit, m) && Named(sh, m, cell[m], digit[m])
    requires m < n ==> m in cell' && m in digit' && cell'[m] == cell[m] && digit'[m] == digit[m]
    ensures m < n && m in RowAdded(sh, n, c, nm).row && m in cell' && m in digit'
    ensures RowStands(RowAdded(sh, n, c, nm), b, hd, cell', digit', m)
    ensures Named(RowAdded(sh, n, c, nm), m, cell'[m], digit'[m])
  {
    RowsInCols(sh, n);
    assert m in sh.col && m < n && sh.name.Keys == sh.col.Keys;
    hide RowAdded, Used, Allowed, Wanted, Cols, CoversName, Named;
    RowAddedCols(sh, n, c, nm, m);
    RowAddedFacts(sh, n, c, nm);
    NamedStays(sh, RowAdded(sh, n, c, nm), m, cell[m], digit[m]);
  }

  lemma NamedStays(sh: Shape, sh': Shape, m: int, cell: int, digit: int)
    requires Named(sh, m, cell, digit) && m in sh'.row && sh'.row[m] == sh.row[m]
    requires forall y :: y in sh.row[m] && y in sh.name ==> y in sh'.name && sh'.name[y] == sh.name[y]
    ensures Named(sh', m, cell, digit)
  {
  }

  lemma RowsNext(sh: Shape, b: Board, hd: map<int, int>, cell: map<int, int>, digit: map<int, int>,
                 n: int, c: seq<int>, nm: seq<int>, i: int, v: int)
    requires |b| == 81 && Allowed(b, i, v) && Used(sh, n, {}) && |c| == 4 && |nm| == 4
    requires forall k :: 0 <= k < 4 ==> nm[k] == NameAt(i, v, k) && nm[k] in hd && c[k] == hd[nm[k]]
    requires RowsUpTo(sh, b, hd, cell, digit, i * 9 + v - 1)
    ensures RowsUpTo(RowAdded(sh, n, c, nm), b, hd, FourOf(cell, n, i), FourOf(digit, n, v), i * 9 + v)
  {
    hide RowAdded, Used, Wanted, RowStands, Named, FourOf, NameAt, HasRow, Allowed;
    var sh', cell', digit' := RowAdded(sh, n, c, nm), FourOf(cell, n, i), FourOf(digit, n, v);
    RowAddedFacts(sh, n, c, nm);
    FourAt(cell, n, i);
    FourAt(digit, n, v);
    forall m | m in sh'.row
      ensures RowStands(sh', b, hd, cell', digit', m)
      ensures m in cell' && m in digit' && Named(sh', m, cell'[m], digit'[m])
    {
      if m in sh.row {
        OldKeys(sh, b, hd, cell, digit, m);
        OldRowStands(sh, b, hd, cell, digit, n, c, nm, cell', digit', m);
      } else {
        NewRowStands(sh, b, hd, cell', digit', n, c, nm, i, v, m);
        NewRowNamed(sh, b, n, c, nm, i, v, m);
      }
    }
    forall j, w | Allowed(b, j, w) && j * 9 + w - 1 < i * 9 + v
      ensures HasRow(sh', cell', digit', j, w)
    {
      RowPresent(sh, b, hd, cell, digit, n, c, nm, i, v, j, w);
    }
  }

  lemma OldKeys(sh: Shape, b: Board, hd: map<int, int>, cell: map<int, int>, digit: map<int, int>, m: int)
    requires m in sh.row && RowStands(sh, b, hd, cell, digit, m)
    ensures m in cell && m in digit
  {
  }

  lemma RowPresent(sh: Shape, b: Board, hd: map<int, int>, cell: map<int, int>, digit: map<int, int>,
                   n: int, c: seq<int>, nm: seq<int>, i: int, v: int, j: int, w: int)
    requires Allowed(b, i, v) && Used(sh, n, {}) && |c| == 4 && |nm| == 4 && Allowed(b, j, w) && j * 9 + w - 1 < i * 9 + v
    requires RowsUpTo(sh, b, hd, cell, digit, i * 9 + v - 1)
    ensures HasRow(RowAdded(sh, n, c, nm), FourOf(cell, n, i), FourOf(digit, n, v), j, w)
  {
    RowAddedFacts(sh, n, c, nm);
    FourAt(cell, n, i);
    FourAt(digit, n, v);
    RowsInCols(sh, n);
    assert sh.row.Keys <= sh.col.Keys;
    hide RowAdded, Used, RowStands, Named, FourOf;
    if j == i && w == v {
      assert n in RowAdded(sh, n, c, nm).row;
    } else {
      assert HasRow(sh, cell, digit, j, w);
      var m :| m in sh.row && m in cell && cell[m] == j && m in digit && digit[m] == w;
      assert m in RowAdded(sh, n, c, nm).row;
    }
  }

  lemma FourAt(f: map<int, int>, n: int, x: int)
    ensures forall m :: n <= m <= n + 3 ==> m in FourOf(f, n, x) && FourOf(f, n, x)[m] == x
    ensures forall m :: m in f && m < n ==> m in FourOf(f, n, x) && FourOf(f, n, x)[m] == f[m]
  {
  }

  lemma RowsSkip(sh: Shape, b: Board, hd: map<int, int>, cell: map<int, int>, digit: map<int, int>, i: int, v: int)
    requires RowsUpTo(sh, b, hd, cell, digit, i * 9 + v - 1) && !Allowed(b, i, v) && 1 <= v <= 9
    ensures RowsUpTo(sh, b, hd, cell, digit, i * 9 + v)
  {
    hide RowStands, Named, HasRow;
    forall j, w | Allowed(b, j, w) && j * 9 + w - 1 < i * 9 + v
      ensures HasRow(sh, cell, digit, j, w)
    {
      assert j != i || w != v;
    }
  }

  lemma RowsSkipCell(sh: Shape, b: Board, hd: map<int, int>, cell: map<int, int>, digit: map<int, int>, i: int)
    requires RowsUpTo(sh, b, hd, cell, digit, i * 9) && 0 <= i < |b| && b[i] != 0
    ensures RowsUpTo(sh, b, hd, cell, digit, i * 9 + 9)
  {
    hide RowStands, Named, HasRow;
    forall j, w | Allowed(b, j, w) && j * 9 + w - 1 < i * 9 + 9
      ensures HasRow(sh, cell, digit, j, w)
    {
      assert j != i;
    }
  }

  // With every column and every row in place the mesh encodes the board.
  lemma AllBuilt(sh: Shape, b: Board, hd: map<int, int>, cell: map<int, int>, digit: map<int, int>)
    requires IsBoard(b) && Headed(sh, hd) && (forall name :: name in hd <==> Wanted(b, name))
    requires RowsUpTo(sh, b, hd, cell, digit, 729)
    ensures Encodes(sh, b, hd, cell, digit) && AllNamed(sh, cell, digit, 81)
  {
    hide Wanted, Named, HasRow;
    forall n | n in sh.row
      ensures n in cell && n in digit && 0 <= cell[n] < 81
    {
      assert RowStands(sh, b, hd, cell, digit, n);
    }
    forall i, v | Allowed(b, i, v)
      ensures exists n :: n in sh.row && n in cell && cell[n] == i && n in digit && digit[n] == v
    {
      assert HasRow(sh, cell, digit, i, v);
      HasRowMeans(sh, cell, digit, i, v);
    }
  }

  lemma HasRowMeans(sh: Shape, cell: map<int, int>, digit: map<int, int>, i: int, v: int)
    requires HasRow(sh, cell, digit, i, v)
    ensures exists n :: n in sh.row && n in cell && cell[n] == i && n in digit && digit[n] == v
  {
  }

  lemma RowsNone(sh: Shape, b: Board, hd: map<int, int>, cell: map<int, int>, digit: map<int, int>)
    requires sh.row == map[]
    ensures RowsUpTo(sh, b, hd, cell, digit, 0)
  {
  }

  ghost predicate HoldsBelow(b: Board, h: House, u: int, v: int, m: int) {
    exists i :: 0 <= i < m && i < |b| && HouseOf(h, i) == u && b[i] == v
  }

  lemma HoldsBelowNext(b: Board, m: int)
    requires 0 <= m < |b|
    ensures forall h: House, u, v ::
              HoldsBelow(b, h, u, v, m + 1) <==> HoldsBelow(b, h, u, v, m) || (HouseOf(h, m) == u && b[m] == v)
  {
    hide HouseOf;
    forall h: House, u, v
      ensures HoldsBelow(b, h, u, v, m + 1) <==> HoldsBelow(b, h, u, v, m) || (HouseOf(h, m) == u && b[m] == v)
    {
      if HoldsBelow(b, h, u, v, m) {
        var i :| 0 <= i < m && i < |b| && HouseOf(h, i) == u && b[i] == v;
        assert i < m + 1;
      }
    }
  }

  lemma HoldsBelowAll(b: Board)
    ensures forall h: House, u, v :: HoldsBelow(b, h, u, v, |b|) <==> Holds(b, h, u, v)
  {
  }

  lemma AllowedHere(b: Board, i: int, v: int)
    requires 0 <= i < |b| && b[i] == 0 && 1 <= v <= 9
    ensures Allowed(b, i, v) <==>
            !Holds(b, Row, HouseOf(Row, i), v) && !Holds(b, Column, HouseOf(Column, i), v) && !Holds(b, Box, HouseOf(Box, i), v)
  {
    hide HouseOf, Holds;
    if !Holds(b, Row, HouseOf(Row, i), v) && !Holds(b, Column, HouseOf(Column, i), v) && !Holds(b, Box, HouseOf(Box, i), v) {
      forall h: House
        ensures !Holds(b, h, HouseOf(h, i), v)
      {
        match h case Row => case Column => case Box =>
      }
    }
  }

  lemma RowNamesWanted(b: Board, i: int, v: int, nm: seq<int>)
    requires |b| == 81 && Allowed(b, i, v)
    requires nm == [i, HouseName(Row, HouseOf(Row, i), v), HouseName(Column, HouseOf(Column, i), v), HouseName(Box, HouseOf(Box, i), v)]
    ensures forall k :: 0 <= k < 4 ==> nm[k] == NameAt(i, v, k) && Wanted(b, nm[k]) && 0 <= nm[k] < 400
    ensures Distinct(nm)
  {
    assert forall k :: 0 <= k < 4 ==> nm[k] == NameAt(i, v, k);
    assert 0 <= i < 81 && 1 <= v <= 9;
    hide NameAt, Wanted, Allowed;
    forall k | 0 <= k < 4
      ensures Wanted(b, nm[k]) && 0 <= nm[k] < 400
    {
      NamesOfRow(b, i, v, k);
    }
    forall k, m | 0 <= k < m < 4
      ensures nm[k] != nm[m]
    {
      NamesOfRowDiffer(i, v, k, m);
    }
  }

  ghost function HeadersOf(hd: map<int, int>, nm: seq<int>): (c: seq<int>)
    requires |nm| == 4 && forall k :: 0 <= k < 4 ==> nm[k] in hd
    ensures |c| == 4 && forall k :: 0 <= k < 4 ==> c[k] == hd[nm[k]]
  {
    [hd[nm[0]], hd[nm[1]], hd[nm[2]], hd[nm[3]]]
  }

  lemma RowAddedSteps(sh0: Shape, n: int, c: seq<int>, nm: seq<int>)
    requires |c| == 4 && |nm| == 4
    ensures var sh := WithNode(WithNode(WithNode(WithNode(sh0, n, c[0], nm[0]), n + 1, c[1], nm[1]), n + 2, c[2], nm[2]), n + 3, c[3], nm[3]);
            && n in sh.col && n + 1 in sh.col && n + 2 in sh.col && n + 3 in sh.col
            && [sh.col[n], sh.col[n + 1], sh.col[n + 2], sh.col[n + 3]] == c
            && RowAdded(sh0, n, c, nm) == WithRow(sh, n)
  {
  }

  lemma HeadersDiffer(sh: Shape, hd: map<int, int>, nm: seq<int>, c: seq<int>)
    requires Headed(sh, hd) && Distinct(nm) && |nm| == |c| && forall k :: 0 <= k < |nm| ==> nm[k] in hd && c[k] == hd[nm[k]]
    ensures Distinct(c)
  {
  }

  lemma JoinSteps(s: Pool, n: int)
    requires 0 <= n && n + 3 < |s| && s[n].left == n && s[n].right == n
    ensures var s1 := PutLeft(s, n, n + 1);
            && 0 <= s1[n].left < |s|
            && var s2 := PutLeft(s1, n, n + 2);
               0 <= s2[n].left < |s| && PutLeft(s2, n, n + 3) == Joined(s, n)
  {
  }

  // ---------------------------------------------------------------- the constructor's state, step by step

  // The node pool s and the header table cols in the middle of the construction.
  ghost predicate Grown(s: Pool, cols: seq<int>, sh: Shape, st: State, cur: int, hd: map<int, int>, openNodes: set<int>) {
    && |s| == MAX_NODES && |cols| == MAX_COLUMNS && s == st.s && Building(sh, st, cur, openNodes) && Headed(sh, hd)
    && forall name :: 0 <= name < MAX_COLUMNS ==> cols[name] == if name in hd then hd[name] else NIL
  }

  lemma GrownStart(s: Pool, cols: seq<int>)
    requires |s| == MAX_NODES && s[0].left == 0 && s[0].right == 0
    requires |cols| == MAX_COLUMNS && forall name :: 0 <= name < MAX_COLUMNS ==> cols[name] == NIL
    ensures Grown(s, cols, Shape(0, {}, map[], map[], map[]), State(s, [0], map[]), 1, map[], {})
  {
    BuildStart(s);
    hide Building;
  }

  lemma GrownColumn(s: Pool, cols: seq<int>, sh: Shape, st: State, cur: int, hd: map<int, int>, n: int)
    requires Grown(s, cols, sh, st, cur, hd, {}) && 0 <= n < MAX_COLUMNS && n !in hd && cur < MAX_NODES
    ensures 0 < cur && 0 <= s[0].left < cur
    ensures var t := PutLeft(s[cur := Node(cur, cur, cur, cur, cur, n, 0)], 0, cur);
            Grown(t, cols[n := cur], WithHead(sh, cur), State(t, st.head + [cur], st.ring[cur := [cur]]), cur + 1, hd[n := cur], {})
  {
    BuildingUsed(sh, st, cur, {});
    AppendHead(sh, st, cur, {}, n);
    HeadedGrows(sh, hd, n, cur);
    hide Building, PutLeft, WithHead, Headed, Used;
    assert HeadAdded(s, cur, n) == PutLeft(s[cur := Node(cur, cur, cur, cur, cur, n, 0)], 0, cur);
  }

  lemma BuildingUsed(sh: Shape, st: State, cur: int, openNodes: set<int>)
    requires Building(sh, st, cur, openNodes)
    ensures Used(sh, cur, openNodes) && 0 < cur && cur !in sh.heads && cur !in sh.col
  {
    hide RowsOk, HeadOk, ColumnsOk, Whole;
  }

  // Node r is alone, and no other node changed sides.
  ghost predicate LoneFrom(s: Pool, t: Pool, r: int) {
    && 0 <= r < |s| == |t| && t[r].left == r && t[r].right == r
    && forall n :: 0 <= n < r ==> t[n].left == s[n].left && t[n].right == s[n].right
  }

  lemma LoneFour(s0: Pool, s1: Pool, s2: Pool, s3: Pool, s4: Pool, n: int)
    requires LoneFrom(s0, s1, n) && LoneFrom(s1, s2, n + 1) && LoneFrom(s2, s3, n + 2) && LoneFrom(s3, s4, n + 3)
    ensures n + 3 < |s4| && s4[n].left == n && s4[n].right == n
  {
  }

  lemma GrownNode(s: Pool, cols: seq<int>, sh: Shape, st: State, cur: int, hd: map<int, int>, openNodes: set<int>, name: int)
    requires Grown(s, cols, sh, st, cur, hd, openNodes) && name in hd && cur < MAX_NODES
    ensures 0 <= name < MAX_COLUMNS && cols[name] == hd[name]
    ensures var c := hd[name];
            && 0 <= c < cur && 0 <= s[c].up < cur && c in st.ring
            && var t := PutUp(s[cur := Node(cur, cur, cur, cur, c, name, 0)], c, cur);
               && LoneFrom(s, t, cur)
               && Grown(t, cols, WithNode(sh, cur, c, name), State(t, st.head, st.ring[c := st.ring[c] + [cur]]),
                        cur + 1, hd, openNodes + {cur})
  {
    hide Building, PutUp, NodeAdded, WithNode, LoneFrom;
    var c := hd[name];
    AppendToColumn(sh, st, cur, openNodes, c, name);
    ColUnread(s, cur, c, name);
    LoneNode(s, cur, c, name);
    SameHeads(sh, WithNode(sh, cur, c, name), hd) by { HeadsOfNode(sh, cur, c, name); }
    hide Headed;
  }

  lemma HeadsOfNode(sh: Shape, cur: int, c: int, name: int)
    ensures WithNode(sh, cur, c, name).heads == sh.heads
  {
  }

  lemma SameHeads(sh: Shape, sh': Shape, hd: map<int, int>)
    requires Headed(sh, hd) && sh'.heads == sh.heads
    ensures Headed(sh', hd)
  {
  }

  lemma LoneNode(s: Pool, cur: int, c: int, name: int)
    requires 0 < cur < |s| && 0 <= c < cur && 0 <= s[c].up < cur
    ensures LoneFrom(s, NodeAdded(s, cur, c, name), cur)
  {
    NodeAddedEffect(s, cur, c, name);
    hide NodeAdded;
  }

  // A new node's col field is set again when the node is put into its column.
  lemma ColUnread(s: Pool, r: int, c: int, name: int)
    requires 0 < r < |s| && 0 <= c < r && 0 <= s[c].up < r
    ensures PutUp(s[r := Node(r, r, r, r, c, name, 0)], c, r) == NodeAdded(s, r, c, name)
  {
  }

  lemma GrownRow(s: Pool, cols: seq<int>, sh: Shape, st: State, cur: int, hd: map<int, int>, nm: seq<int>, c: seq<int>)
    requires Grown(s, cols, sh, st, cur, hd, {}) && Distinct(nm)
    requires |nm| == 4 && |c| == 4 && forall k :: 0 <= k < 4 ==> nm[k] in hd && c[k] == hd[nm[k]]
    ensures Used(sh, cur, {}) && cur > 0 && Distinct(c)
  {
    BuildingUsed(sh, st, cur, {});
    HeadersDiffer(sh, hd, nm, c);
    hide Building, Used, Headed, Distinct;
  }

  lemma GrownJoin(s: Pool, cols: seq<int>, sh: Shape, st: State, hd: map<int, int>, n: int)
    requires Grown(s, cols, sh, st, n + 4, hd, {n, n + 1, n + 2, n + 3}) && n > 0 && n + 3 < |s| && s[n].left == n && s[n].right == n
    requires n in sh.col && n + 1 in sh.col && n + 2 in sh.col && n + 3 in sh.col
    requires Distinct([sh.col[n], sh.col[n + 1], sh.col[n + 2], sh.col[n + 3]])
    ensures s == st.s
    ensures Grown(Joined(s, n), cols, WithRow(sh, n), State(Joined(s, n), st.head, st.ring), n + 4, hd, {})
  {
    hide Building, Joined, Headed, Distinct;
    JoinRow(sh, st, n);
    SameHeads(sh, WithRow(sh, n), hd);
    hide WithRow;
  }

  lemma GrownDone(s: Pool, cols: seq<int>, sh: Shape, st: State, cur: int, hd: map<int, int>, b: Board, cell: map<int, int>, digit: map<int, int>)
    requires Grown(s, cols, sh, st, cur, hd, {}) && IsBoard(b) && (forall name :: name in hd <==> Wanted(b, name))
    requires RowsUpTo(sh, b, hd, cell, digit, 729)
    ensures Good(sh, st) && s == st.s && Open(st) == sh.heads && sh.root == 0
    ensures Encodes(sh, b, hd, cell, digit) && AllNamed(sh, cell, digit, 81)
  {
    BuiltIsGood(sh, st, cur);
    assert Whole(sh, st) && Used(sh, cur, {});
    hide Building, Good, Headed, Wanted, RowsUpTo, Encodes, AllNamed;
    AllBuilt(sh, b, hd, cell, digit);
  }
}
