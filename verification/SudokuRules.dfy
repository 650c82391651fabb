/** Sudoku itself, and its encoding as an exact-cover problem: one column for every empty cell and for every
  digit still missing from a row, column or box; one row for every digit an empty cell may still take. */
module SudokuRules {
  import opened Mesh

  type Board = seq<int>

  ghost predicate IsBoard(b: Board) {
    |b| == 81 && forall i :: 0 <= i < 81 ==> 0 <= b[i] <= 9
  }

  // Rows, columns and boxes: the house number of cell i, and the k-th cell of house u.
  datatype House = Row | Column | Box

  function HouseOf(h: House, i: int): int {
    match h
    case Row => i / 9
    case Column => i % 9
    case Box => i / 9 / 3 * 3 + i % 9 / 3
  }

  function CellOf(h: House, u: int, k: int): int {
    match h
    case Row => u * 9 + k
    case Column => k * 9 + u
    case Box => (u / 3 * 3 + k / 3) * 9 + u % 3 * 3 + k % 3
  }

  lemma SplitBy(n: int, a: int, b: int)
    requires n in {3, 9} && 0 <= b < n
    ensures (a * n + b) / n == a && (a * n + b) % n == b
  {
    if n == 3 {
      assert (a * 3 + b) / 3 == a;
    } else {
      assert (a * 9 + b) / 9 == a;
    }
  }

  lemma HouseCells(h: House, u: int, k: int)
    requires 0 <= u < 9 && 0 <= k < 9
    ensures 0 <= CellOf(h, u, k) < 81 && HouseOf(h, CellOf(h, u, k)) == u
  {
    if h == Box {
      SplitBy(9, u / 3 * 3 + k / 3, u % 3 * 3 + k % 3);
      SplitBy(3, u / 3, k / 3);
      SplitBy(3, u % 3, k % 3);
    }
  }

  lemma CellPlace(h: House, i: int) returns (k: int)
    requires 0 <= i < 81
    ensures 0 <= k < 9 && 0 <= HouseOf(h, i) < 9 && CellOf(h, HouseOf(h, i), k) == i
  {
    if h == Row {
      k := i % 9;
    } else if h == Column {
      k := i / 9;
    } else {
      var a, b := i / 9, i % 9;
      k := a % 3 * 3 + b % 3;
      SplitBy(3, a / 3, b / 3);
      SplitBy(3, a % 3, b % 3);
    }
  }

  lemma CellsDiffer(h: House, u: int, k: int, m: int)
    requires 0 <= u < 9 && 0 <= k < 9 && 0 <= m < 9 && k != m
    ensures CellOf(h, u, k) != CellOf(h, u, m)
  {
  }

  // A full grid without a repeated digit in any house.
  ghost predicate ValidGrid(g: Board) {
    && |g| == 81 && (forall i :: 0 <= i < 81 ==> 1 <= g[i] <= 9)
    && forall h: House, i, j :: 0 <= i < j < 81 && HouseOf(h, i) == HouseOf(h, j) ==> g[i] != g[j]
  }

  ghost predicate Holds(g: Board, h: House, u: int, v: int) {
    exists i :: 0 <= i < |g| && HouseOf(h, i) == u && g[i] == v
  }

  ghost predicate EveryDigitEverywhere(g: Board) {
    forall h: House, u, v :: 0 <= u < 9 && 1 <= v <= 9 ==> Holds(g, h, u, v)
  }

  // g fills in the empty cells of b and keeps its givens.
  ghost predicate Completes(b: Board, g: Board) {
    ValidGrid(g) && |b| == 81 && forall i :: 0 <= i < 81 && b[i] != 0 ==> g[i] == b[i]
  }

  // ---------------------------------------------------------------- nine places, nine digits

  ghost function Range(n: nat): (r: set<int>)
    ensures forall v :: v in r <==> 1 <= v <= n
  {
    if n == 0 then {} else Range(n - 1) + {n}
  }

  lemma {:induction false} RangeSize(n: nat)
    ensures |Range(n)| == n
  {
    if n > 0 {
      RangeSize(n - 1);
      assert n !in Range(n - 1);
    }
  }

  lemma {:induction false} ElemsSize(d: seq<int>)
    ensures |Elems(d)| <= |d|
    ensures Distinct(d) ==> |Elems(d)| == |d|
  {
    if d != [] {
      var init, l := d[..|d| - 1], d[|d| - 1];
      ElemsSize(init);
      assert Elems(d) == Elems(init) + {l};
    }
  }

  lemma RepeatLoses(d: seq<int>, i: int, j: int)
    requires 0 <= i < j < |d| && d[i] == d[j]
    ensures |Elems(d)| < |d|
  {
    var rest := d[..j] + d[j + 1..];
    ElemsSize(rest);
    forall v | v in Elems(d)
      ensures v in Elems(rest)
    {
      var k := IndexOf(d, v);
      assert rest[if k < j then k else if k == j then i else k - 1] == v;
    }
    SubsetSize(Elems(d), Elems(rest));
  }

  // A digit list of length 9 has no repeats exactly when it has every digit.
  lemma Pigeonhole(d: seq<int>)
    requires |d| == 9 && forall k :: 0 <= k < 9 ==> 1 <= d[k] <= 9
    ensures Distinct(d) <==> Elems(d) == Range(9)
  {
    RangeSize(9);
    ElemsSize(d);
    assert Elems(d) <= Range(9);
    hide Range, Elems;
    if Distinct(d) {
      SubsetFull(Elems(d), Range(9));
    } else {
      var i, j :| 0 <= i < j < |d| && d[i] == d[j];
      RepeatLoses(d, i, j);
    }
  }

  lemma SubsetSize(a: set<int>, b: set<int>)
    requires a <= b
    ensures |a| <= |b|
  {
    assert b == a + (b - a);
  }

  lemma SubsetFull(a: set<int>, b: set<int>)
    requires a <= b && |a| == |b|
    ensures a == b
  {
    assert b == a + (b - a);
  }

  ghost function Digits(g: Board, h: House, u: int): seq<int>
    requires |g| == 81 && 0 <= u < 9
  {
    seq(9, k requires 0 <= k < 9 => HouseCells(h, u, k); g[CellOf(h, u, k)])
  }

  // The usual rule and the solver's rule are the same.
  lemma ValidIffEveryDigit(g: Board)
    requires |g| == 81 && forall i :: 0 <= i < 81 ==> 1 <= g[i] <= 9
    ensures ValidGrid(g) <==> EveryDigitEverywhere(g)
  {
    if ValidGrid(g) {
      forall h: House, u, v | 0 <= u < 9 && 1 <= v <= 9
        ensures Holds(g, h, u, v)
      {
        HouseHasDigit(g, h, u, v);
      }
    }
    if EveryDigitEverywhere(g) {
      forall h: House, i, j | 0 <= i < j < 81 && HouseOf(h, i) == HouseOf(h, j)
        ensures g[i] != g[j]
      {
        HouseHasNoRepeat(g, h, i, j);
      }
    }
  }

  lemma HouseHasDigit(g: Board, h: House, u: int, v: int)
    requires ValidGrid(g) && 0 <= u < 9 && 1 <= v <= 9
    ensures Holds(g, h, u, v)
  {
    var d := Digits(g, h, u);
    forall k, m | 0 <= k < m < 9
      ensures d[k] != d[m]
    {
      HouseCells(h, u, k); HouseCells(h, u, m); CellsDiffer(h, u, k, m);
    }
    DigitsInRange(g, h, u);
    Pigeonhole(d);
    assert v in Range(9);
    var k := IndexOf(d, v);
    HouseCells(h, u, k);
    assert g[CellOf(h, u, k)] == v;
  }

  lemma DigitsInRange(g: Board, h: House, u: int)
    requires |g| == 81 && (forall i :: 0 <= i < 81 ==> 1 <= g[i] <= 9) && 0 <= u < 9
    ensures forall k :: 0 <= k < 9 ==> 1 <= Digits(g, h, u)[k] <= 9
  {
    forall k | 0 <= k < 9
      ensures 1 <= Digits(g, h, u)[k] <= 9
    {
      HouseCells(h, u, k);
    }
  }

  lemma HouseHasNoRepeat(g: Board, h: House, i: int, j: int)
    requires |g| == 81 && (forall c :: 0 <= c < 81 ==> 1 <= g[c] <= 9) && EveryDigitEverywhere(g)
    requires 0 <= i < j < 81 && HouseOf(h, i) == HouseOf(h, j)
    ensures g[i] != g[j]
  {
    var k := CellPlace(h, i);
    var m := CellPlace(h, j);
    var u := HouseOf(h, i);
    var d := Digits(g, h, u);
    assert d[k] == g[i] && d[m] == g[j];
    DigitsInRange(g, h, u);
    forall v | v in Range(9)
      ensures v in Elems(d)
    {
      assert Holds(g, h, u, v);
      var c :| 0 <= c < 81 && HouseOf(h, c) == u && g[c] == v;
      var p := CellPlace(h, c);
      assert d[p] == v;
    }
    assert Elems(d) <= Range(9);
    Pigeonhole(d);
    assert k != m;
    assert d[k] != d[m];
  }

  // ---------------------------------------------------------------- the encoding

  // Column names: the cell number, or 100, 200, 300 + house * 10 + digit.
  function HouseName(h: House, u: int, v: int): int {
    (match h case Row => 100 case Column => 200 case Box => 300) + u * 10 + v
  }

  // The columns of the exact-cover problem of b.
  ghost predicate Wanted(b: Board, name: int) {
    || (0 <= name < |b| && b[name] == 0)
    || exists h: House, u, v :: 0 <= u < 9 && 1 <= v <= 9 && name == HouseName(h, u, v) && !Holds(b, h, u, v)
  }

  // Digit v may still go to cell i.
  ghost predicate Allowed(b: Board, i: int, v: int) {
    && 0 <= i < |b| && b[i] == 0 && 1 <= v <= 9
    && forall h: House :: !Holds(b, h, HouseOf(h, i), v)
  }

  ghost predicate CoversName(i: int, v: int, name: int) {
    name == i || exists h: House :: name == HouseName(h, HouseOf(h, i), v)
  }

  // The mesh spells out the problem: `hd` gives the header of each wanted name, and the row through n stands
  // for digit[n] in cell[n].
  ghost predicate Encodes(sh: Shape, b: Board, hd: map<int, int>, cell: map<int, int>, digit: map<int, int>) {
    && (forall name :: name in hd <==> Wanted(b, name))
    && (forall x, y :: x in hd && y in hd && x != y ==> hd[x] != hd[y])
    && (forall name :: name in hd ==> hd[name] in sh.heads)
    && (forall c :: c in sh.heads ==> exists name :: name in hd && hd[name] == c)
    && (forall n :: n in sh.row ==> RowStands(sh, b, hd, cell, digit, n))
    && (forall i, v :: Allowed(b, i, v) ==> exists n :: n in sh.row && n in cell && cell[n] == i && n in digit && digit[n] == v)
  }

  ghost predicate RowStands(sh: Shape, b: Board, hd: map<int, int>, cell: map<int, int>, digit: map<int, int>, n: int) {
    && n in cell && n in digit && Allowed(b, cell[n], digit[n])
    && (forall name :: name in hd && CoversName(cell[n], digit[n], name) ==> hd[name] in Cols(sh, n))
    && (forall c :: c in Cols(sh, n) ==> exists name :: name in hd && hd[name] == c && CoversName(cell[n], digit[n], name))
  }

  lemma NamesDiffer(h: House, u: int, v: int, h': House, u': int, v': int)
    requires 0 <= u < 9 && 0 <= u' < 9 && 1 <= v <= 9 && 1 <= v' <= 9
    ensures HouseName(h, u, v) == HouseName(h', u', v') <==> h == h' && u == u' && v == v'
    ensures 100 < HouseName(h, u, v) < 400 && HouseName(h, u, v) % 10 == v
  {
  }

  lemma HouseRange(h: House, i: int)
    requires 0 <= i < 81
    ensures 0 <= HouseOf(h, i) < 9
  {
    var k := CellPlace(h, i);
  }

  // Which house names a row uses.
  lemma CoversHouse(i: int, v: int, h: House, u: int, w: int)
    requires 0 <= i < 81 && 1 <= v <= 9 && 0 <= u < 9 && 1 <= w <= 9
    ensures CoversName(i, v, HouseName(h, u, w)) <==> HouseOf(h, i) == u && v == w
  {
    NamesDiffer(h, u, w, h, u, w);
    forall h': House
      ensures HouseName(h, u, w) == HouseName(h', HouseOf(h', i), v) <==> h == h' && u == HouseOf(h', i) && v == w
    {
      HouseRange(h', i);
      NamesDiffer(h, u, w, h', HouseOf(h', i), v);
    }
  }

  lemma CoversCell(i: int, v: int, k: int)
    requires 0 <= i < 81 && 1 <= v <= 9 && 0 <= k < 81
    ensures CoversName(i, v, k) <==> i == k
  {
    forall h: House
      ensures HouseName(h, HouseOf(h, i), v) > 100
    {
      HouseRange(h, i);
      NamesDiffer(h, HouseOf(h, i), v, h, HouseOf(h, i), v);
    }
  }

  // Two rows of an encoding share a column exactly when they share a name.
  lemma ShareName(sh: Shape, b: Board, hd: map<int, int>, cell: map<int, int>, digit: map<int, int>, n: int, m: int, name: int)
    requires Encodes(sh, b, hd, cell, digit) && n in sh.row && m in sh.row && name in hd
    requires n in cell && n in digit && m in cell && m in digit
    requires CoversName(cell[n], digit[n], name) && CoversName(cell[m], digit[m], name)
    ensures !(Cols(sh, n) !! Cols(sh, m))
  {
    assert RowStands(sh, b, hd, cell, digit, n) && RowStands(sh, b, hd, cell, digit, m);
    hide Cols, CoversName, Allowed, Wanted;
    assert hd[name] in Cols(sh, n) && hd[name] in Cols(sh, m);
  }

  lemma HeaderOf(sh: Shape, b: Board, hd: map<int, int>, cell: map<int, int>, digit: map<int, int>, name: int)
    requires Encodes(sh, b, hd, cell, digit)
    ensures Wanted(b, name) <==> name in hd
    ensures name in hd ==> hd[name] in sh.heads
  {
    hide Wanted, RowStands, Allowed;
  }

  lemma RowInHeads(sh: Shape, b: Board, hd: map<int, int>, cell: map<int, int>, digit: map<int, int>, n: int)
    requires Encodes(sh, b, hd, cell, digit) && n in sh.row
    ensures Cols(sh, n) <= sh.heads
  {
    assert RowStands(sh, b, hd, cell, digit, n);
    hide Cols, CoversName, Wanted, Allowed;
    forall c | c in Cols(sh, n)
      ensures c in sh.heads
    {
      var name :| name in hd && hd[name] == c && CoversName(cell[n], digit[n], name);
      HeaderOf(sh, b, hd, cell, digit, name);
    }
  }

  // Some pick of an exact cover covers a wanted name.
  lemma PickFor(sh: Shape, b: Board, hd: map<int, int>, cell: map<int, int>, digit: map<int, int>, picks: seq<int>, name: int)
    returns (k: int)
    requires Encodes(sh, b, hd, cell, digit) && ExactCover(sh, sh.heads, picks) && Wanted(b, name)
    ensures 0 <= k < |picks| && picks[k] in cell && picks[k] in digit && Allowed(b, cell[picks[k]], digit[picks[k]])
    ensures CoversName(cell[picks[k]], digit[picks[k]], name)
  {
    hide Cols, CoversName, Allowed, Wanted;
    HeaderOf(sh, b, hd, cell, digit, name);
    assert Meets(sh, picks, hd[name]);
    k :| 0 <= k < |picks| && hd[name] in Cols(sh, picks[k]);
    assert RowStands(sh, b, hd, cell, digit, picks[k]);
  }

  // No two picks fill the same cell.
  lemma PicksDiffer(sh: Shape, b: Board, hd: map<int, int>, cell: map<int, int>, digit: map<int, int>, picks: seq<int>, i: int, j: int)
    requires |b| == 81 && Encodes(sh, b, hd, cell, digit) && ExactCover(sh, sh.heads, picks) && 0 <= i < j < |picks|
    ensures picks[i] in cell && picks[j] in cell && cell[picks[i]] != cell[picks[j]]
  {
    hide Cols;
    var n, m := picks[i], picks[j];
    assert RowStands(sh, b, hd, cell, digit, n) && RowStands(sh, b, hd, cell, digit, m);
    if cell[n] == cell[m] {
      assert Wanted(b, cell[n]);
      hide Encodes;
      ShareName(sh, b, hd, cell, digit, n, m, cell[n]);
      assert false;
    }
  }

  // ---------------------------------------------------------------- exact covers are solutions

  ghost predicate DifferentCells(cell: map<int, int>, picks: seq<int>) {
    forall i, j :: 0 <= i < j < |picks| && picks[i] in cell && picks[j] in cell ==> cell[picks[i]] != cell[picks[j]]
  }

  lemma {:induction false} WrittenAt(b: Board, cell: map<int, int>, digit: map<int, int>, picks: seq<int>)
    requires DifferentCells(cell, picks)
    requires forall k :: 0 <= k < |picks| ==> picks[k] in cell && picks[k] in digit && 0 <= cell[picks[k]] < |b|
    ensures forall k :: 0 <= k < |picks| ==> Written(b, cell, digit, picks)[cell[picks[k]]] == digit[picks[k]]
    ensures forall i :: 0 <= i < |b| && (forall k :: 0 <= k < |picks| ==> cell[picks[k]] != i) ==>
              Written(b, cell, digit, picks)[i] == b[i]
  {
    if picks != [] {
      var init, n := picks[..|picks| - 1], picks[|picks| - 1];
      WrittenAt(b, cell, digit, init);
      var w := Written(b, cell, digit, init);
      assert Written(b, cell, digit, picks) == w[cell[n] := digit[n]];
      forall k | 0 <= k < |picks|
        ensures w[cell[n] := digit[n]][cell[picks[k]]] == digit[picks[k]]
      {
        if k < |picks| - 1 {
          assert init[k] == picks[k];
        }
      }
      forall i | 0 <= i < |b| && (forall k :: 0 <= k < |picks| ==> cell[picks[k]] != i)
        ensures w[cell[n] := digit[n]][i] == b[i]
      {
        assert forall k :: 0 <= k < |init| ==> init[k] == picks[k];
      }
    }
  }

  // The digits written for an exact cover: each given stays, each pick shows.
  lemma CoverWrites(sh: Shape, b: Board, hd: map<int, int>, cell: map<int, int>, digit: map<int, int>, picks: seq<int>)
    requires IsBoard(b) && Encodes(sh, b, hd, cell, digit) && ExactCover(sh, sh.heads, picks)
    ensures var g := Written(b, cell, digit, picks);
            && (forall k :: 0 <= k < |picks| ==> picks[k] in cell && picks[k] in digit && 0 <= cell[picks[k]] < 81)
            && (forall k :: 0 <= k < |picks| ==> g[cell[picks[k]]] == digit[picks[k]])
            && (forall i :: 0 <= i < 81 && b[i] != 0 ==> g[i] == b[i])
  {
    hide Cols, Wanted, Meets;
    forall i, j | 0 <= i < j < |picks|
      ensures picks[i] in cell && picks[j] in cell && cell[picks[i]] != cell[picks[j]]
    {
      PicksDiffer(sh, b, hd, cell, digit, picks, i, j);
    }
    forall k | 0 <= k < |picks|
      ensures picks[k] in cell && picks[k] in digit && 0 <= cell[picks[k]] < 81 && b[cell[picks[k]]] == 0
    {
      assert RowStands(sh, b, hd, cell, digit, picks[k]);
    }
    hide Encodes, ExactCover;
    WrittenAt(b, cell, digit, picks);
  }

  lemma CoverFillsHouse(sh: Shape, b: Board, hd: map<int, int>, cell: map<int, int>, digit: map<int, int>, picks: seq<int>,
                        h: House, u: int, v: int)
    requires IsBoard(b) && Encodes(sh, b, hd, cell, digit) && ExactCover(sh, sh.heads, picks)
    requires 0 <= u < 9 && 1 <= v <= 9
    ensures Holds(Written(b, cell, digit, picks), h, u, v)
  {
    hide Encodes, ExactCover, CoversName;
    var g := Written(b, cell, digit, picks);
    CoverWrites(sh, b, hd, cell, digit, picks);
    if Holds(b, h, u, v) {
      var i :| 0 <= i < |b| && HouseOf(h, i) == u && b[i] == v;
      assert g[i] == v;
    } else {
      assert Wanted(b, HouseName(h, u, v));
      var k := PickFor(sh, b, hd, cell, digit, picks, HouseName(h, u, v));
      var n := picks[k];
      CoversHouse(cell[n], digit[n], h, u, v);
      assert g[cell[n]] == v;
    }
  }

  // An exact cover of the encoding spells a completion of the board.
  lemma CoverSolves(sh: Shape, b: Board, hd: map<int, int>, cell: map<int, int>, digit: map<int, int>, picks: seq<int>)
    requires IsBoard(b) && Encodes(sh, b, hd, cell, digit) && ExactCover(sh, sh.heads, picks)
    ensures Completes(b, Written(b, cell, digit, picks))
  {
    hide Encodes, ExactCover, CoversName, Holds;
    var g := Written(b, cell, digit, picks);
    CoverWrites(sh, b, hd, cell, digit, picks);
    forall i | 0 <= i < 81
      ensures 1 <= g[i] <= 9
    {
      if b[i] == 0 {
        assert Wanted(b, i);
        var k := PickFor(sh, b, hd, cell, digit, picks, i);
        CoversCell(cell[picks[k]], digit[picks[k]], i);
      }
    }
    forall h: House, u, v | 0 <= u < 9 && 1 <= v <= 9
      ensures Holds(g, h, u, v)
    {
      CoverFillsHouse(sh, b, hd, cell, digit, picks, h, u, v);
    }
    ValidIffEveryDigit(g);
  }

  // ---------------------------------------------------------------- solutions are exact covers

  lemma GridAllows(b: Board, g: Board, i: int)
    requires IsBoard(b) && Completes(b, g) && 0 <= i < 81 && b[i] == 0
    ensures Allowed(b, i, g[i])
  {
    forall h: House
      ensures !Holds(b, h, HouseOf(h, i), g[i])
    {
    }
  }

  ghost predicate PicksUpTo(sh: Shape, b: Board, g: Board, cell: map<int, int>, digit: map<int, int>, picks: seq<int>, m: int)
    requires |b| == 81 && |g| == 81
  {
    && (forall k :: 0 <= k < |picks| ==> picks[k] in sh.row && picks[k] in cell && picks[k] in digit)
    && (forall k :: 0 <= k < |picks| ==> 0 <= cell[picks[k]] < m <= 81 && b[cell[picks[k]]] == 0)
    && (forall k :: 0 <= k < |picks| ==> 0 <= cell[picks[k]] < 81 && digit[picks[k]] == g[cell[picks[k]]])
    && (forall k, l :: 0 <= k < l < |picks| ==> cell[picks[k]] != cell[picks[l]])
    && (forall i :: 0 <= i < m <= 81 && b[i] == 0 ==> exists k :: 0 <= k < |picks| && cell[picks[k]] == i)
  }

  lemma {:induction false} PicksOf(sh: Shape, b: Board, g: Board, hd: map<int, int>, cell: map<int, int>, digit: map<int, int>, m: int)
    returns (picks: seq<int>)
    requires IsBoard(b) && Completes(b, g) && Encodes(sh, b, hd, cell, digit) && 0 <= m <= 81
    ensures PicksUpTo(sh, b, g, cell, digit, picks, m)
  {
    picks := [];
    if m > 0 {
      var init := PicksOf(sh, b, g, hd, cell, digit, m - 1);
      if b[m - 1] == 0 {
        GridAllows(b, g, m - 1);
        var n :| n in sh.row && n in cell && cell[n] == m - 1 && n in digit && digit[n] == g[m - 1];
        hide Encodes, Completes, IsBoard;
        PicksExtend(sh, b, g, cell, digit, init, m, n);
        picks := init + [n];
      } else {
        picks := init;
      }
    }
  }

  lemma PicksExtend(sh: Shape, b: Board, g: Board, cell: map<int, int>, digit: map<int, int>, init: seq<int>, m: int, n: int)
    requires |b| == 81 && |g| == 81 && 1 <= m <= 81 && PicksUpTo(sh, b, g, cell, digit, init, m - 1)
    requires n in sh.row && n in cell && cell[n] == m - 1 && n in digit && digit[n] == g[m - 1] && b[m - 1] == 0
    ensures PicksUpTo(sh, b, g, cell, digit, init + [n], m)
  {
    var picks := init + [n];
    forall i | 0 <= i < m && b[i] == 0
      ensures exists k :: 0 <= k < |picks| && cell[picks[k]] == i
    {
      if i == m - 1 {
        assert cell[picks[|init|]] == i;
      } else {
        var k :| 0 <= k < |init| && cell[init[k]] == i;
        assert cell[picks[k]] == i;
      }
    }
  }

  // Two cells of a valid grid share no name.
  lemma GridRowsApart(sh: Shape, b: Board, g: Board, hd: map<int, int>, cell: map<int, int>, digit: map<int, int>, n: int, m: int)
    requires IsBoard(b) && Completes(b, g) && Encodes(sh, b, hd, cell, digit) && n in sh.row && m in sh.row
    requires n in cell && m in cell && n in digit && m in digit && cell[n] != cell[m]
    requires 0 <= cell[n] < 81 && 0 <= cell[m] < 81 && digit[n] == g[cell[n]] && digit[m] == g[cell[m]]
    ensures Cols(sh, n) !! Cols(sh, m)
  {
    assert RowStands(sh, b, hd, cell, digit, n) && RowStands(sh, b, hd, cell, digit, m);
    hide Cols, Allowed, Wanted, CoversName;
    forall c | c in Cols(sh, n) && c in Cols(sh, m)
      ensures false
    {
      var x :| x in hd && hd[x] == c && CoversName(cell[n], digit[n], x);
      var y :| y in hd && hd[y] == c && CoversName(cell[m], digit[m], y);
      assert x == y;
      NamesApart(g, cell[n], cell[m], x);
    }
  }

  lemma NamesApart(g: Board, i: int, j: int, x: int)
    requires ValidGrid(g) && 0 <= i < 81 && 0 <= j < 81 && i != j && CoversName(i, g[i], x)
    ensures !CoversName(j, g[j], x)
  {
    if x == i {
      CoversCell(j, g[j], i);
    } else {
      var h: House :| x == HouseName(h, HouseOf(h, i), g[i]);
      HouseRange(h, i);
      CoversHouse(j, g[j], h, HouseOf(h, i), g[i]);
    }
  }

  lemma GridMeets(sh: Shape, b: Board, g: Board, hd: map<int, int>, cell: map<int, int>, digit: map<int, int>, picks: seq<int>, c: int)
    requires IsBoard(b) && Completes(b, g) && Encodes(sh, b, hd, cell, digit) && c in sh.heads
    requires PicksUpTo(sh, b, g, cell, digit, picks, 81)
    ensures Meets(sh, picks, c)
  {
    var name :| name in hd && hd[name] == c;
    var i := WantedCell(b, g, name);
    var k :| 0 <= k < |picks| && cell[picks[k]] == i;
    assert RowStands(sh, b, hd, cell, digit, picks[k]);
    hide Cols, Allowed, Wanted, CoversName;
    assert c in Cols(sh, picks[k]);
  }

  // The empty cell whose digit covers a wanted name.
  lemma WantedCell(b: Board, g: Board, name: int) returns (i: int)
    requires IsBoard(b) && Completes(b, g) && Wanted(b, name)
    ensures 0 <= i < 81 && b[i] == 0 && CoversName(i, g[i], name)
  {
    if 0 <= name < 81 && b[name] == 0 {
      i := name;
    } else {
      var h: House, u, v :| 0 <= u < 9 && 1 <= v <= 9 && name == HouseName(h, u, v) && !Holds(b, h, u, v);
      ValidIffEveryDigit(g);
      assert Holds(g, h, u, v);
      i :| 0 <= i < 81 && HouseOf(h, i) == u && g[i] == v;
    }
  }

  // Every completion of the board is an exact cover of the encoding.
  lemma SolutionCovers(sh: Shape, b: Board, g: Board, hd: map<int, int>, cell: map<int, int>, digit: map<int, int>)
    requires IsBoard(b) && Completes(b, g) && Encodes(sh, b, hd, cell, digit)
    ensures HasExactCover(sh, sh.heads)
  {
    var picks := PicksOf(sh, b, g, hd, cell, digit, 81);
    forall k | 0 <= k < |picks|
      ensures picks[k] in sh.row && Cols(sh, picks[k]) <= sh.heads
    {
      RowInHeads(sh, b, hd, cell, digit, picks[k]);
    }
    forall k, l | 0 <= k < l < |picks|
      ensures Cols(sh, picks[k]) !! Cols(sh, picks[l])
    {
      GridRowsApart(sh, b, g, hd, cell, digit, picks[k], picks[l]);
    }
    forall c | c in sh.heads
      ensures Meets(sh, picks, c)
    {
      GridMeets(sh, b, g, hd, cell, digit, picks, c);
    }
    assert ExactCover(sh, sh.heads, picks);
  }

  // The board can be completed exactly when its encoding has an exact cover.
  lemma EncodingIsExact(sh: Shape, b: Board, hd: map<int, int>, cell: map<int, int>, digit: map<int, int>)
    requires IsBoard(b) && Encodes(sh, b, hd, cell, digit)
    ensures HasExactCover(sh, sh.heads) <==> exists g :: Completes(b, g)
  {
    hide Encodes, ExactCover, Completes;
    if HasExactCover(sh, sh.heads) {
      var picks :| ExactCover(sh, sh.heads, picks);
      CoverSolves(sh, b, hd, cell, digit, picks);
    }
    if g :| Completes(b, g) {
      SolutionCovers(sh, b, g, hd, cell, digit);
    }
  }

  // A digit given twice in a house leaves no exact cover.
  lemma RepeatedGivenFails(sh: Shape, b: Board, hd: map<int, int>, cell: map<int, int>, digit: map<int, int>, h: House, i: int, j: int)
    requires IsBoard(b) && Encodes(sh, b, hd, cell, digit)
    requires 0 <= i < j < 81 && HouseOf(h, i) == HouseOf(h, j) && b[i] == b[j] != 0
    ensures !HasExactCover(sh, sh.heads)
  {
    hide Encodes, HouseOf;
    EncodingIsExact(sh, b, hd, cell, digit);
    forall g
      ensures !Completes(b, g)
    {
      RepeatedGiven(b, g, h, i, j);
    }
  }

  lemma RepeatedGiven(b: Board, g: Board, h: House, i: int, j: int)
    requires |b| == 81 && 0 <= i < j < 81 && HouseOf(h, i) == HouseOf(h, j) && b[i] == b[j] != 0
    ensures !Completes(b, g)
  {
  }
}
