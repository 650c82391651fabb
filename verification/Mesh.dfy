/** The mesh of doubly circular-linked nodes behind the dancing-links solver, as values.

  A `Pool` is the content of the node array.  A `State` pairs it with the rings that its
  links spell out: the ring of linked column headers and, for each header, its vertical ring.
  A `Shape` is the part of the mesh that covering never changes: which nodes are headers,
  which column a row node belongs to and the row that is met when going right from it.
*/
module Mesh {

  datatype Node = Node(left: int, right: int, up: int, down: int, col: int, name: int, size: int)

  type Pool = seq<Node>

  datatype Shape = Shape(root: int, heads: set<int>, col: map<int, int>, row: map<int, seq<int>>, name: map<int, int>)

  datatype State = State(s: Pool, head: seq<int>, ring: map<int, seq<int>>)

  // ---------------------------------------------------------------- rings

  ghost predicate Distinct(q: seq<int>) {
    forall i, j :: 0 <= i < j < |q| ==> q[i] != q[j]
  }

  ghost predicate InPool(s: Pool, q: seq<int>) {
    forall i :: 0 <= i < |q| ==> 0 <= q[i] < |s|
  }

  // The element that follows position i on the circle.
  function After(q: seq<int>, i: int): int
    requires 0 <= i < |q|
  {
    if i + 1 < |q| then q[i + 1] else q[0]
  }

  // Going right from q[0] meets q in order and comes back; going left meets it in reverse.
  ghost predicate Across(s: Pool, q: seq<int>) {
    && |q| > 0 && Distinct(q) && InPool(s, q)
    && forall i :: 0 <= i < |q| ==> s[q[i]].right == After(q, i) && s[After(q, i)].left == q[i]
  }

  // The same for down and up.
  ghost predicate Downward(s: Pool, q: seq<int>) {
    && |q| > 0 && Distinct(q) && InPool(s, q)
    && forall i :: 0 <= i < |q| ==> s[q[i]].down == After(q, i) && s[After(q, i)].up == q[i]
  }

  ghost function IndexOf(q: seq<int>, j: int): (i: int)
    requires j in q
    ensures 0 <= i < |q| && q[i] == j
  {
    var i :| 0 <= i < |q| && q[i] == j; i
  }

  ghost function Without(q: seq<int>, j: int): seq<int> {
    if j in q then q[..IndexOf(q, j)] + q[IndexOf(q, j) + 1..] else q
  }

  lemma WithoutMembers(q: seq<int>, j: int)
    requires Distinct(q)
    ensures Distinct(Without(q, j))
    ensures forall x :: x in Without(q, j) <==> x in q && x != j
    ensures j in q ==> |Without(q, j)| == |q| - 1
    ensures forall i :: j in q && 0 <= i < |q| - 1 ==> Without(q, j)[i] == if i < IndexOf(q, j) then q[i] else q[i + 1]
  {
    if j in q {
      var k := IndexOf(q, j);
      var r := Without(q, j);
      forall x | x in q && x != j
        ensures x in r
      {
        var i := IndexOf(q, x);
        assert r[if i < k then i else i - 1] == x;
      }
    }
  }

  // ---------------------------------------------------------------- one link operation

  ghost predicate Bounded(s: Pool, j: int) {
    0 <= j < |s| && 0 <= s[j].up < |s| && 0 <= s[j].down < |s| && 0 <= s[j].col < |s|
  }

  ghost predicate SideBounded(s: Pool, c: int) {
    0 <= c < |s| && 0 <= s[c].left < |s| && 0 <= s[c].right < |s|
  }

  // Takes node j out of its vertical ring.
  ghost function Hide(s: Pool, j: int): (t: Pool)
    requires Bounded(s, j)
    ensures |t| == |s| && Bounded(t, j)
  {
    var s1 := s[s[j].down := s[s[j].down].(up := s[j].up)];
    var s2 := s1[s1[j].up := s1[s1[j].up].(down := s1[j].down)];
    s2[s2[j].col := s2[s2[j].col].(size := s2[s2[j].col].size - 1)]
  }

  // Puts node j back where its own links still point.
  ghost function Show(s: Pool, j: int): Pool
    requires Bounded(s, j)
  {
    var s1 := s[s[j].col := s[s[j].col].(size := s[s[j].col].size + 1)];
    var s2 := s1[s1[j].down := s1[s1[j].down].(up := j)];
    s2[s2[j].up := s2[s2[j].up].(down := j)]
  }

  // Takes header c out of the header ring.
  ghost function Unlink(s: Pool, c: int): (t: Pool)
    requires SideBounded(s, c)
    ensures |t| == |s| && SideBounded(t, c)
  {
    var s1 := s[s[c].right := s[s[c].right].(left := s[c].left)];
    s1[s1[c].left := s1[s1[c].left].(right := s1[c].right)]
  }

  ghost function Relink(s: Pool, c: int): Pool
    requires SideBounded(s, c)
  {
    var s1 := s[s[c].right := s[s[c].right].(left := c)];
    s1[s1[c].left := s1[s1[c].left].(right := c)]
  }

  lemma ShowUndoesHide(s: Pool, j: int)
    requires Bounded(s, j) && s[s[j].down].up == j && s[s[j].up].down == j
    ensures Show(Hide(s, j), j) == s
  {
    var t := Show(Hide(s, j), j);
    assert forall n :: 0 <= n < |s| ==> t[n] == s[n];
  }

  lemma RelinkUndoesUnlink(s: Pool, c: int)
    requires SideBounded(s, c) && s[s[c].right].left == c && s[s[c].left].right == c
    ensures Relink(Unlink(s, c), c) == s
  {
    var t := Relink(Unlink(s, c), c);
    assert forall n :: 0 <= n < |s| ==> t[n] == s[n];
  }

  // What one Hide changes, field by field.
  lemma HideEffect(s: Pool, j: int)
    requires Bounded(s, j)
    ensures forall n :: 0 <= n < |s| ==>
              var t := Hide(s, j)[n];
              && t.left == s[n].left && t.right == s[n].right && t.col == s[n].col && t.name == s[n].name
              && t.size == (if n == s[j].col then s[n].size - 1 else s[n].size)
              && t.up == (if n == s[j].down then s[j].up else s[n].up)
              && (s[j].down != j ==> t.down == if n == s[j].up then s[j].down else s[n].down)
  {
  }

  // Hiding q[k] leaves the ring without it, and every other vertical ring as it was.
  lemma HideLeavesRing(s: Pool, q: seq<int>, k: int)
    requires Downward(s, q) && 0 < k < |q| && Bounded(s, q[k])
    ensures Downward(Hide(s, q[k]), q[..k] + q[k + 1..])
  {
    HideEffect(s, q[k]);
    assert s[q[k]].up == q[k - 1] by { assert After(q, k - 1) == q[k]; }
    assert s[q[k]].down == After(q, k) != q[k];
    ClosedDown(s, Hide(s, q[k]), q, k);
  }

  // Closing the gap that q[k] leaves makes a ring of the rest.
  lemma ClosedDown(s: Pool, t: Pool, q: seq<int>, k: int)
    requires Downward(s, q) && 0 < k < |q| && |t| == |s|
    requires forall n :: 0 <= n < |s| ==>
               && t[n].up == (if n == After(q, k) then q[k - 1] else s[n].up)
               && t[n].down == (if n == q[k - 1] then After(q, k) else s[n].down)
    ensures Downward(t, q[..k] + q[k + 1..])
  {
    var r := q[..k] + q[k + 1..];
    forall i | 0 <= i < |r|
      ensures t[r[i]].down == After(r, i) && t[After(r, i)].up == r[i]
    {
      if i == k - 1 {
        assert r[i] == q[k - 1] && After(r, i) == After(q, k);
      } else {
        var i' := if i < k then i else i + 1;
        assert r[i] == q[i'] && After(r, i) == After(q, i');
        assert s[q[i']].down == After(q, i') && s[After(q, i')].up == q[i'];
      }
    }
  }

  lemma HideKeepsOther(s: Pool, q: seq<int>, k: int, p: seq<int>)
    requires Downward(s, q) && 0 < k < |q| && Bounded(s, q[k])
    requires Downward(s, p) && forall x :: x in p ==> x !in q
    ensures Downward(Hide(s, q[k]), p)
  {
    var t := Hide(s, q[k]);
    HideEffect(s, q[k]);
    assert s[q[k]].up == q[k - 1] by { assert After(q, k - 1) == q[k]; }
    assert q[k - 1] in q && After(q, k) in q;
    forall i | 0 <= i < |p|
      ensures t[p[i]].down == After(p, i) && t[After(p, i)].up == p[i]
    {
      assert p[i] in p && After(p, i) in p;
    }
  }

  // ---------------------------------------------------------------- well-formed meshes

  ghost predicate RowOk(sh: Shape, n: int)
    requires n in sh.row
  {
    var q := sh.row[n];
    && |q| > 0 && q[0] == n && Distinct(q)
    && (forall i :: 0 <= i < |q| ==> q[i] in sh.row && q[i] in sh.col)
    && (forall i, j :: 0 <= i < j < |q| ==> sh.col[q[i]] != sh.col[q[j]])
    && (forall x, y :: x in q ==> (y in sh.row[x] <==> y in q))
  }

  ghost predicate ShapeOk(sh: Shape) {
    && sh.root !in sh.heads && sh.root !in sh.col && sh.heads !! sh.col.Keys && sh.row.Keys == sh.col.Keys
    && (forall n :: n in sh.col ==> sh.col[n] in sh.heads)
    && (forall n :: n in sh.row ==> RowOk(sh, n))
  }

  // Row nodes point at their column header and around their row.
  ghost predicate RowsOk(sh: Shape, s: Pool) {
    && (forall n :: n in sh.name ==> 0 <= n < |s| && s[n].name == sh.name[n])
    && (forall n :: n in sh.col ==> 0 <= n < |s| && s[n].col == sh.col[n])
    && (forall n :: n in sh.row ==> Across(s, sh.row[n]))
  }

  ghost predicate HeadOk(sh: Shape, s: Pool, head: seq<int>) {
    && Across(s, head) && head[0] == sh.root
    && forall i :: 1 <= i < |head| ==> head[i] in sh.heads
  }

  // q is the vertical ring of column c: the header, then nodes of that column, as many as `size` says.
  ghost predicate ColumnOk(sh: Shape, s: Pool, c: int, q: seq<int>) {
    && Downward(s, q) && q[0] == c && s[c].size == |q| - 1
    && forall i :: 1 <= i < |q| ==> q[i] in sh.col && sh.col[q[i]] == c
  }

  ghost predicate ColumnsOk(sh: Shape, s: Pool, ring: map<int, seq<int>>) {
    forall c :: c in sh.heads ==> c in ring && ColumnOk(sh, s, c, ring[c])
  }

  ghost predicate Wf(sh: Shape, st: State) {
    ShapeOk(sh) && RowsOk(sh, st.s) && HeadOk(sh, st.s, st.head) && ColumnsOk(sh, st.s, st.ring)
  }

  lemma ColumnAt(sh: Shape, st: State, c: int)
    requires Wf(sh, st) && c in sh.heads
    ensures c in st.ring && ColumnOk(sh, st.s, c, st.ring[c])
  {
    hide ColumnOk, RowsOk, HeadOk, ShapeOk;
  }

  lemma ShapeAt(sh: Shape, st: State)
    requires Wf(sh, st)
    ensures ShapeOk(sh) && HeadOk(sh, st.s, st.head) && RowsOk(sh, st.s)
  {
    hide ColumnsOk, RowsOk, HeadOk, ShapeOk;
  }

  lemma RowShape(sh: Shape, n: int)
    requires ShapeOk(sh) && n in sh.row
    ensures n in sh.col && sh.col[n] in sh.heads && sh.row.Keys == sh.col.Keys && RowOk(sh, n)
    ensures sh.col[n] !in sh.col && n !in sh.heads
  {
    hide RowOk;
  }

  lemma NodeShape(sh: Shape, n: int)
    requires ShapeOk(sh) && n in sh.col
    ensures n in sh.row && sh.col[n] in sh.heads
    ensures sh.col[n] !in sh.col && n !in sh.heads
  {
    hide RowOk;
  }

  // ---------------------------------------------------------------- covering, as a function of the state

  // Node j is linked in its column.
  ghost predicate Linked(sh: Shape, st: State, j: int) {
    j in sh.col && sh.col[j] in st.ring && j in st.ring[sh.col[j]]
  }

  ghost function HideNode(sh: Shape, st: State, j: int): State {
    if Linked(sh, st, j) && Bounded(st.s, j) then
      State(Hide(st.s, j), st.head, st.ring[sh.col[j] := Without(st.ring[sh.col[j]], j)])
    else st
  }

  ghost function HideAll(sh: Shape, st: State, js: seq<int>): State {
    if js == [] then st
    else HideNode(sh, HideAll(sh, st, js[..|js| - 1]), js[|js| - 1])
  }

  // The other nodes of x's row, in the order met going right from x.
  ghost function Others(sh: Shape, x: int): seq<int> {
    if x in sh.row && sh.row[x] != [] then sh.row[x][1..] else []
  }

  ghost function HideRows(sh: Shape, st: State, xs: seq<int>): State {
    if xs == [] then st
    else HideAll(sh, HideRows(sh, st, xs[..|xs| - 1]), Others(sh, xs[|xs| - 1]))
  }

  ghost function UnlinkHead(st: State, c: int): State {
    if SideBounded(st.s, c) then State(Unlink(st.s, c), Without(st.head, c), st.ring) else st
  }

  ghost function ColumnNodes(st: State, c: int): seq<int> {
    if c in st.ring && st.ring[c] != [] then st.ring[c][1..] else []
  }

  ghost function Cover(sh: Shape, st: State, c: int): State {
    HideRows(sh, UnlinkHead(st, c), ColumnNodes(st, c))
  }

  lemma RingBounds(sh: Shape, st: State, c: int, k: int)
    requires Wf(sh, st) && c in sh.heads && c in st.ring && 0 < k < |st.ring[c]|
    ensures Bounded(st.s, st.ring[c][k])
    ensures var j := st.ring[c][k]; st.s[st.s[j].down].up == j && st.s[st.s[j].up].down == j
    ensures st.ring[c][k] in sh.col && sh.col[st.ring[c][k]] == c && st.s[st.ring[c][k]].col == c
  {
    var q, s := st.ring[c], st.s;
    var j := q[k];
    assert s[j].col == c by { ColumnAt(sh, st, c); ShapeAt(sh, st); hide Wf, Downward, HeadOk, ShapeOk; }
    ColumnAt(sh, st, c);
    hide Wf;
    assert s[j].down == After(q, k) && After(q, k - 1) == j && s[j].up == q[k - 1];
  }

  lemma HideKeepsAcross(s: Pool, j: int)
    requires Bounded(s, j)
    ensures forall q :: Across(s, q) ==> Across(Hide(s, j), q)
  {
    HideEffect(s, j);
  }

  lemma HideInColumn(sh: Shape, s: Pool, q: seq<int>, j: int)
    requires j in sh.col && ColumnOk(sh, s, sh.col[j], q) && j in q && sh.col[j] !in sh.col
    requires Bounded(s, j) && s[j].col == sh.col[j]
    ensures ColumnOk(sh, Hide(s, j), sh.col[j], Without(q, j))
  {
    var k, r := IndexOf(q, j), Without(q, j);
    assert q[0] != j;
    HideLeavesRing(s, q, k);
    assert Hide(s, j)[sh.col[j]].size == |r| - 1 by {
      HideEffect(s, j);
      hide Downward, Hide;
    }
    hide Downward, Hide, Bounded;
    forall i | 1 <= i < |r|
      ensures r[i] in sh.col && sh.col[r[i]] == sh.col[j]
    {
      assert r[i] == q[if i < k then i else i + 1];
    }
  }

  lemma HideBesideColumn(sh: Shape, s: Pool, q: seq<int>, j: int, c: int, p: seq<int>)
    requires j in sh.col && ColumnOk(sh, s, sh.col[j], q) && j in q && sh.col[j] !in sh.col
    requires Bounded(s, j) && s[j].col == sh.col[j]
    requires c != sh.col[j] && c !in sh.col && ColumnOk(sh, s, c, p)
    ensures ColumnOk(sh, Hide(s, j), c, p)
  {
    assert forall x :: x in p ==> x !in q;
    HideKeepsOther(s, q, IndexOf(q, j), p);
    HideEffect(s, j);
  }

  lemma HideKeepsColumn(sh: Shape, st: State, j: int, c: int)
    requires Wf(sh, st) && j in sh.col && sh.col[j] in sh.heads && sh.col[j] in st.ring && j in st.ring[sh.col[j]]
    requires Bounded(st.s, j) && st.s[j].col == sh.col[j]
    requires c in sh.heads
    ensures c in st.ring
    ensures ColumnOk(sh, Hide(st.s, j), c, if c == sh.col[j] then Without(st.ring[c], j) else st.ring[c])
  {
    hide ColumnOk, Bounded, Hide, Without;
    ColumnAt(sh, st, sh.col[j]);
    ColumnAt(sh, st, c);
    ShapeAt(sh, st);
    hide Wf, HeadOk, RowsOk;
    NodeShape(sh, j);
    assert c !in sh.col;
    if c == sh.col[j] {
      HideInColumn(sh, st.s, st.ring[c], j);
    } else {
      HideBesideColumn(sh, st.s, st.ring[sh.col[j]], j, c, st.ring[c]);
    }
  }

  lemma HideKeepsRest(sh: Shape, s: Pool, head: seq<int>, j: int)
    requires Bounded(s, j) && RowsOk(sh, s) && HeadOk(sh, s, head)
    ensures RowsOk(sh, Hide(s, j)) && HeadOk(sh, Hide(s, j), head)
  {
    HideEffect(s, j);
    HideKeepsAcross(s, j);
    hide Hide, Across;
  }

  lemma HideNodeWf(sh: Shape, st: State, j: int)
    requires Wf(sh, st) && Linked(sh, st, j)
    ensures Bounded(st.s, j) && Show(Hide(st.s, j), j) == st.s
    ensures var st' := HideNode(sh, st, j);
            && Wf(sh, st') && st'.s == Hide(st.s, j) && st'.head == st.head
            && sh.col[j] in st.ring && st'.ring == st.ring[sh.col[j] := Without(st.ring[sh.col[j]], j)]
  {
    hide ColumnOk, Hide, Without, ShapeOk, HeadOk, RowsOk;
    ShapeAt(sh, st);
    NodeShape(sh, j);
    var c := sh.col[j];
    var k := RingIndex(sh, st, j);
    RingBounds(sh, st, c, k);
    ShowUndoesHide(st.s, j);
    HideKeepsRest(sh, st.s, st.head, j);
    forall c' | c' in sh.heads
      ensures c' in st.ring
      ensures ColumnOk(sh, Hide(st.s, j), c', if c' == c then Without(st.ring[c'], j) else st.ring[c'])
    {
      HideKeepsColumn(sh, st, j, c');
    }
  }

  lemma RingIndex(sh: Shape, st: State, j: int) returns (k: int)
    requires Wf(sh, st) && Linked(sh, st, j) && sh.col[j] in sh.heads && sh.col[j] !in sh.col
    ensures 0 < k < |st.ring[sh.col[j]]| && st.ring[sh.col[j]][k] == j
  {
    ColumnAt(sh, st, sh.col[j]);
    hide Wf, Downward;
    k := IndexOf(st.ring[sh.col[j]], j);
  }

  // ---------------------------------------------------------------- what covering keeps

  // Everything that covering may take out of the column rings is in `gone`.
  ghost predicate Dropped(sh: Shape, st: State, st': State, gone: set<int>) {
    && st'.ring.Keys == st.ring.Keys
    && (forall c, y {:trigger y in st'.ring[c]} {:trigger y in st.ring[c]} :: c in sh.heads && c in st.ring ==> (y in st'.ring[c] <==> y in st.ring[c] && y !in gone))
    && (forall c :: c in sh.heads && c in st.ring && (forall y :: y in gone ==> y !in st.ring[c]) ==> st'.ring[c] == st.ring[c])
  }

  lemma DroppedTwice(sh: Shape, a: State, b: State, c: State, g: set<int>, h: set<int>)
    requires Dropped(sh, a, b, g) && Dropped(sh, b, c, h)
    ensures Dropped(sh, a, c, g + h)
  {
    forall k | k in sh.heads && k in a.ring && (forall y :: y in g + h ==> y !in a.ring[k])
      ensures c.ring[k] == a.ring[k]
    {
      assert b.ring[k] == a.ring[k];
    }
  }

  // No node is in the vertical ring of another column.
  lemma ColumnsApart(sh: Shape, st: State, j: int, k: int)
    requires Wf(sh, st) && k in sh.heads && j in sh.col && sh.col[j] != k
    ensures k in st.ring && j !in st.ring[k]
  {
    assert ColumnOk(sh, st.s, k, st.ring[k]);
  }

  lemma RingDistinct(sh: Shape, st: State, c: int)
    requires Wf(sh, st) && c in sh.heads
    ensures c in st.ring && Distinct(st.ring[c])
  {
    assert ColumnOk(sh, st.s, c, st.ring[c]);
  }

  lemma HideNodeDrops(sh: Shape, st: State, j: int)
    requires Wf(sh, st) && Linked(sh, st, j)
    ensures Dropped(sh, st, HideNode(sh, st, j), {j})
  {
    HideNodeWf(sh, st, j);
    var c := sh.col[j];
    RingDistinct(sh, st, c);
    forall k | k in sh.heads && k in st.ring && k != c
      ensures j !in st.ring[k]
    {
      ColumnsApart(sh, st, j, k);
    }
    DroppedOne(sh, st, HideNode(sh, st, j), c, j);
  }

  lemma DroppedOne(sh: Shape, st: State, st': State, c: int, j: int)
    requires c in st.ring && st'.ring == st.ring[c := Without(st.ring[c], j)] && j in st.ring[c] && Distinct(st.ring[c])
    requires forall k :: k in sh.heads && k in st.ring && k != c ==> j !in st.ring[k]
    ensures Dropped(sh, st, st', {j})
  {
    WithoutMembers(st.ring[c], j);
    hide Without, Distinct;
  }

  ghost function Elems(js: seq<int>): set<int> {
    set x | x in js
  }

  lemma {:induction false} HideAllWf(sh: Shape, st: State, js: seq<int>)
    requires Wf(sh, st) && Distinct(js) && forall j :: j in js ==> Linked(sh, st, j)
    ensures Wf(sh, HideAll(sh, st, js)) && HideAll(sh, st, js).head == st.head
    ensures Dropped(sh, st, HideAll(sh, st, js), Elems(js))
  {
    hide Wf, Linked, HideNode, Dropped;
    if js == [] {
      DroppedNone(sh, st);
      assert Elems(js) == {};
    } else {
      var init, j := js[..|js| - 1], js[|js| - 1];
      assert Elems(js) == Elems(init) + {j};
      assert j in js;
      HideAllWf(sh, st, init);
      LinkedColumn(sh, st, j);
      var mid := HideAll(sh, st, init);
      StillLinked(sh, st, mid, Elems(init), j);
      HideNodeHead(sh, mid, j);
      HideNodeDrops(sh, mid, j);
      DroppedTwice(sh, st, mid, HideAll(sh, st, js), Elems(init), {j});
    }
  }

  lemma DroppedNone(sh: Shape, st: State)
    ensures Dropped(sh, st, st, {})
  {
  }

  lemma HideNodeHead(sh: Shape, st: State, j: int)
    requires Wf(sh, st) && Linked(sh, st, j)
    ensures Wf(sh, HideNode(sh, st, j)) && HideNode(sh, st, j).head == st.head
  {
    HideNodeWf(sh, st, j);
    hide Wf, HideNode;
  }

  lemma LinkedColumn(sh: Shape, st: State, n: int)
    requires Wf(sh, st) && Linked(sh, st, n)
    ensures n in sh.col && sh.col[n] in sh.heads && sh.col[n] in st.ring
  {
    ShapeAt(sh, st);
    hide Wf;
  }

  lemma StillLinked(sh: Shape, st: State, st': State, gone: set<int>, j: int)
    requires Dropped(sh, st, st', gone) && Linked(sh, st, j) && sh.col[j] in sh.heads && j !in gone
    ensures Linked(sh, st', j)
  {
    var c := sh.col[j];
    assert c in st'.ring && j in st'.ring[c];
  }

  // The nodes hidden when the rows through xs are taken out of the other columns.
  ghost function Struck(sh: Shape, xs: seq<int>): set<int> {
    if xs == [] then {} else Struck(sh, xs[..|xs| - 1]) + Elems(Others(sh, xs[|xs| - 1]))
  }

  lemma {:induction false} StruckMembers(sh: Shape, xs: seq<int>, y: int)
    ensures y in Struck(sh, xs) <==> exists x :: x in xs && y in Others(sh, x)
  {
    if xs != [] {
      StruckMembers(sh, xs[..|xs| - 1], y);
      var l := xs[|xs| - 1];
      assert forall x :: x in xs <==> x in xs[..|xs| - 1] || x == l;
    }
  }

  // Rows met in one column: their nodes elsewhere are all linked.
  ghost predicate Coverable(sh: Shape, st: State, c: int, xs: seq<int>) {
    && c in sh.heads && Distinct(xs)
    && forall x :: x in xs ==> x in sh.col && sh.col[x] == c && forall y :: y in Others(sh, x) ==> Linked(sh, st, y)
  }

  lemma OthersMembers(sh: Shape, x: int)
    requires ShapeOk(sh) && x in sh.row
    ensures Distinct(Others(sh, x)) && |Others(sh, x)| == |sh.row[x]| - 1
    ensures forall y :: y in Others(sh, x) <==> y in sh.row[x] && y != x
    ensures forall y :: y in Others(sh, x) ==> sh.col[y] != sh.col[x]
  {
    assert RowOk(sh, x);
    var q := sh.row[x];
    assert q == [x] + q[1..];
    forall i, j | 0 <= i < j < |q[1..]|
      ensures q[1..][i] != q[1..][j]
    {
      assert q[i + 1] != q[j + 1];
    }
    forall y | y in q[1..]
      ensures y != x && sh.col[y] != sh.col[x]
    {
      var i := IndexOf(q[1..], y);
      assert q[i + 1] == y && q[0] != q[i + 1];
    }
  }

  lemma RowsDisjoint(sh: Shape, x: int, z: int, y: int)
    requires ShapeOk(sh) && x in sh.col && z in sh.col && sh.col[x] == sh.col[z]
    requires y in sh.row[x] && y in sh.row[z]
    ensures x == z
  {
    assert RowOk(sh, x) && RowOk(sh, z);
    var q := sh.row[z];
    assert x in sh.row[x] && x in sh.row[y] && x in q && z in q;
    var i, j := IndexOf(q, x), IndexOf(q, z);
    assert sh.col[q[i]] == sh.col[q[j]];
  }

  // While the earlier rows of a column are hidden, the next one is still whole.
  lemma RowStillLinked(sh: Shape, st: State, st': State, c: int, xs: seq<int>, x: int, y: int)
    requires ShapeOk(sh) && Coverable(sh, st, c, xs + [x]) && y in Others(sh, x)
    requires Dropped(sh, st, st', Struck(sh, xs))
    ensures Linked(sh, st', y)
  {
    assert x in xs + [x];
    assert Linked(sh, st, y);
    CoverablePrefix(sh, st, c, xs, x);
    OthersMembers(sh, x);
    if y in Struck(sh, xs) {
      StruckMembers(sh, xs, y);
      var z :| z in xs && y in Others(sh, z);
      assert z in xs + [x];
      OthersMembers(sh, z);
      RowsDisjoint(sh, x, z, y);
      assert false;
    }
  }

  lemma CoverablePrefix(sh: Shape, st: State, c: int, xs: seq<int>, x: int)
    requires Coverable(sh, st, c, xs + [x])
    ensures Coverable(sh, st, c, xs) && c in sh.heads && x in sh.col && sh.col[x] == c && x !in xs
  {
    forall z | z in xs
      ensures z in xs + [x]
    {
    }
    forall i, j | 0 <= i < j < |xs|
      ensures xs[i] != xs[j]
    {
      assert (xs + [x])[i] != (xs + [x])[j];
    }
    assert x in xs + [x];
    forall i | 0 <= i < |xs|
      ensures xs[i] != x
    {
      assert (xs + [x])[i] != (xs + [x])[|xs|];
    }
  }

  lemma {:induction false} HideRowsWf(sh: Shape, st: State, c: int, xs: seq<int>)
    requires Wf(sh, st) && Coverable(sh, st, c, xs)
    ensures Wf(sh, HideRows(sh, st, xs)) && HideRows(sh, st, xs).head == st.head
    ensures Dropped(sh, st, HideRows(sh, st, xs), Struck(sh, xs))
    ensures c in st.ring && c in HideRows(sh, st, xs).ring && HideRows(sh, st, xs).ring[c] == st.ring[c]
  {
    assert c in sh.heads;
    hide Wf, Coverable, Linked, Others, ShapeOk;
    RingDistinct(sh, st, c);
    ShapeAt(sh, st);
    if xs != [] {
      var init, x := xs[..|xs| - 1], xs[|xs| - 1];
      assert xs == init + [x];
      CoverablePrefix(sh, st, c, init, x);
      NodeShape(sh, x);
      assert HideRows(sh, st, xs) == HideAll(sh, HideRows(sh, st, init), Others(sh, x));
      assert Struck(sh, xs) == Struck(sh, init) + Elems(Others(sh, x));
      hide HideRows, HideAll, Struck, HeadOk, RowsOk;
      HideRowsWf(sh, st, c, init);
      var mid := HideRows(sh, st, init);
      forall y | y in Others(sh, x)
        ensures Linked(sh, mid, y) && y !in mid.ring[c]
      {
        RowStillLinked(sh, st, mid, c, init, x, y);
        OthersMembers(sh, x);
        ColumnsApart(sh, mid, y, c);
      }
      OthersMembers(sh, x);
      HideAllWf(sh, mid, Others(sh, x));
      DroppedTwice(sh, st, mid, HideRows(sh, st, xs), Struck(sh, init), Elems(Others(sh, x)));
    }
  }

  // ---------------------------------------------------------------- stable states

  // The columns still to be covered.
  ghost function Open(st: State): set<int> {
    set i | 1 <= i < |st.head| :: st.head[i]
  }

  // The columns that the row through n meets.
  ghost function Cols(sh: Shape, n: int): set<int> {
    if n in sh.row then set y | y in sh.row[n] && y in sh.col :: sh.col[y] else {}
  }

  // Between two covers, an open column links exactly the rows all of whose columns are open.
  ghost predicate Good(sh: Shape, st: State) {
    && Wf(sh, st)
    && forall n :: n in sh.col && sh.col[n] in Open(st) ==> (Linked(sh, st, n) <==> Cols(sh, n) <= Open(st))
  }

  lemma UnlinkEffect(s: Pool, head: seq<int>, k: int)
    requires Across(s, head) && 0 < k < |head| && SideBounded(s, head[k])
    ensures forall n :: 0 <= n < |s| ==>
              var t := Unlink(s, head[k])[n];
              && t.up == s[n].up && t.down == s[n].down && t.col == s[n].col && t.name == s[n].name && t.size == s[n].size
              && t.left == (if n == After(head, k) then head[k - 1] else s[n].left)
              && t.right == (if n == head[k - 1] then After(head, k) else s[n].right)
  {
    assert s[head[k]].left == head[k - 1] by { assert After(head, k - 1) == head[k]; }
  }

  lemma UnlinkLeavesRing(s: Pool, head: seq<int>, k: int)
    requires Across(s, head) && 0 < k < |head| && SideBounded(s, head[k])
    ensures Across(Unlink(s, head[k]), head[..k] + head[k + 1..])
  {
    UnlinkEffect(s, head, k);
    ClosedUp(s, Unlink(s, head[k]), head, k);
  }

  // Closing the gap that q[k] leaves makes a ring of the rest.
  lemma ClosedUp(s: Pool, t: Pool, q: seq<int>, k: int)
    requires Across(s, q) && 0 < k < |q| && |t| == |s|
    requires forall n :: 0 <= n < |s| ==>
               && t[n].left == (if n == After(q, k) then q[k - 1] else s[n].left)
               && t[n].right == (if n == q[k - 1] then After(q, k) else s[n].right)
    ensures Across(t, q[..k] + q[k + 1..])
  {
    var r := q[..k] + q[k + 1..];
    forall i | 0 <= i < |r|
      ensures t[r[i]].right == After(r, i) && t[After(r, i)].left == r[i]
    {
      if i == k - 1 {
        assert r[i] == q[k - 1] && After(r, i) == After(q, k);
      } else {
        var i' := if i < k then i else i + 1;
        assert r[i] == q[i'] && After(r, i) == After(q, i');
        assert s[q[i']].right == After(q, i') && s[After(q, i')].left == q[i'];
      }
    }
  }

  lemma UnlinkKeepsOther(s: Pool, head: seq<int>, k: int, p: seq<int>)
    requires Across(s, head) && 0 < k < |head| && SideBounded(s, head[k])
    requires Across(s, p) && forall x :: x in p ==> x !in head
    ensures Across(Unlink(s, head[k]), p)
  {
    var t := Unlink(s, head[k]);
    UnlinkEffect(s, head, k);
    assert head[k - 1] in head && After(head, k) in head;
    forall i | 0 <= i < |p|
      ensures t[p[i]].right == After(p, i) && t[After(p, i)].left == p[i]
    {
      assert p[i] in p && After(p, i) in p;
    }
  }

  lemma InRing(s: Pool, q: seq<int>, k: int)
    requires Across(s, q) && 0 < k < |q|
    ensures SideBounded(s, q[k]) && s[s[q[k]].right].left == q[k] && s[s[q[k]].left].right == q[k]
  {
    assert After(q, k - 1) == q[k];
    assert s[q[k]].left == q[k - 1];
  }

  lemma UnlinkKeepsRows(sh: Shape, st: State, k: int)
    requires Wf(sh, st) && 0 < k < |st.head| && SideBounded(st.s, st.head[k])
    ensures RowsOk(sh, Unlink(st.s, st.head[k]))
  {
    var t := Unlink(st.s, st.head[k]);
    UnlinkEffect(st.s, st.head, k);
    forall n | n in sh.row
      ensures Across(t, sh.row[n])
    {
      RowNotHead(sh, st, n);
      UnlinkKeepsOther(st.s, st.head, k, sh.row[n]);
    }
  }

  lemma UnlinkKeepsColumns(sh: Shape, st: State, k: int)
    requires Wf(sh, st) && 0 < k < |st.head| && SideBounded(st.s, st.head[k])
    ensures ColumnsOk(sh, Unlink(st.s, st.head[k]), st.ring)
  {
    var t := Unlink(st.s, st.head[k]);
    ShapeAt(sh, st);
    UnlinkEffect(st.s, st.head, k);
    hide Wf, Unlink, SideBounded, ShapeOk, RowsOk, HeadOk;
    forall c | c in sh.heads
      ensures c in st.ring && ColumnOk(sh, t, c, st.ring[c])
    {
      ColumnAt(sh, st, c);
      SameColumn(sh, st.s, t, c, st.ring[c]);
    }
  }

  lemma SameColumn(sh: Shape, s: Pool, t: Pool, c: int, q: seq<int>)
    requires ColumnOk(sh, s, c, q) && |s| == |t|
    requires forall n :: 0 <= n < |s| ==> t[n].up == s[n].up && t[n].down == s[n].down && t[n].size == s[n].size
    ensures ColumnOk(sh, t, c, q)
  {
  }

  lemma UnlinkHeadWf(sh: Shape, st: State, c: int)
    requires Wf(sh, st) && c in Open(st)
    ensures SideBounded(st.s, c) && Relink(Unlink(st.s, c), c) == st.s
    ensures Wf(sh, UnlinkHead(st, c)) && Open(UnlinkHead(st, c)) == Open(st) - {c}
    ensures |UnlinkHead(st, c).head| == |st.head| - 1
  {
    hide RowsOk, ColumnsOk, ShapeOk, Unlink, Relink;
    ShapeAt(sh, st);
    var k := IndexOf(st.head, c);
    InRing(st.s, st.head, k);
    RelinkUndoesUnlink(st.s, c);
    OpenWithout(st, c);
    UnlinkKeepsRows(sh, st, k);
    UnlinkKeepsColumns(sh, st, k);
    UnlinkLeavesRing(st.s, st.head, k);
    assert Without(st.head, c)[0] == sh.root;
    hide Across, SideBounded;
    WithoutMembers(st.head, c);
  }

  lemma OpenWithout(st: State, c: int)
    requires Distinct(st.head) && c in Open(st)
    ensures var st' := UnlinkHead(st, c).(head := Without(st.head, c));
            Open(st') == Open(st) - {c} && |st'.head| == |st.head| - 1
  {
    var h, h' := st.head, Without(st.head, c);
    WithoutMembers(h, c);
    var k := IndexOf(h, c);
    assert h'[0] == h[0];
    forall x
      ensures x in Open(st.(head := h')) <==> x in Open(st) && x != c
    {
      if x in Open(st) && x != c {
        var i := IndexOf(h, x);
        assert h'[if i < k then i else i - 1] == x;
      }
    }
  }

  lemma RowNotHead(sh: Shape, st: State, n: int)
    requires Wf(sh, st) && n in sh.row
    ensures forall x :: x in sh.row[n] ==> x !in st.head
  {
    assert RowOk(sh, n);
  }

  lemma SameCols(sh: Shape, n: int, x: int)
    requires ShapeOk(sh) && n in sh.row && x in sh.row[n]
    ensures x in sh.row && n in sh.row[x] && sh.col[x] in Cols(sh, n) && sh.col[n] in Cols(sh, n)
    ensures Cols(sh, x) == Cols(sh, n)
  {
    assert RowOk(sh, n);
    assert n in sh.row[n];
  }

  lemma ColumnNodesOf(sh: Shape, st: State, c: int)
    requires Wf(sh, st) && c in sh.heads
    ensures c in st.ring && st.ring[c] == [c] + ColumnNodes(st, c) && Distinct(ColumnNodes(st, c))
    ensures forall x :: x in ColumnNodes(st, c) <==> Linked(sh, st, x) && sh.col[x] == c
  {
    ColumnAt(sh, st, c);
    assert c !in sh.col by { ShapeAt(sh, st); hide Wf, RowOk; }
    hide Wf;
    var q, xs := st.ring[c], ColumnNodes(st, c);
    TailDistinct(q);
    assert q == [q[0]] + xs;
    forall x | x in xs
      ensures Linked(sh, st, x) && sh.col[x] == c
    {
      assert q[IndexOf(xs, x) + 1] == x;
    }
  }

  lemma TailDistinct(q: seq<int>)
    requires Distinct(q) && q != []
    ensures Distinct(q[1..]) && q == [q[0]] + q[1..] && q[0] !in q[1..]
  {
    forall i | 0 <= i < |q| - 1
      ensures q[1..][i] == q[i + 1] != q[0]
    {
    }
  }

  lemma ColumnCoverable(sh: Shape, st: State, c: int)
    requires Good(sh, st) && c in Open(st) && c in sh.heads
    ensures Coverable(sh, UnlinkHead(st, c), c, ColumnNodes(st, c))
  {
    var st' := UnlinkHead(st, c);
    ColumnNodesOf(sh, st, c);
    forall x, y | x in ColumnNodes(st, c) && y in Others(sh, x)
      ensures Linked(sh, st', y)
    {
      OthersMembers(sh, x);
      SameCols(sh, x, y);
      assert Linked(sh, st, x);
      assert Cols(sh, x) <= Open(st);
      assert Linked(sh, st, y);
    }
  }

  // After covering c, an open column links exactly the rows that avoid c as well.
  lemma CoverLinks(sh: Shape, st: State, c: int, n: int)
    requires Good(sh, st) && c in Open(st) && c in sh.heads
    requires n in sh.col && sh.col[n] in Open(st) && sh.col[n] != c
    ensures Cols(sh, n) <= Open(st) - {c} <==> Linked(sh, st, n) && n !in Struck(sh, ColumnNodes(st, c))
  {
    var xs := ColumnNodes(st, c);
    ColumnNodesOf(sh, st, c);
    StruckMembers(sh, xs, n);
    if x :| x in xs && n in Others(sh, x) {
      OthersMembers(sh, x);
      SameCols(sh, x, n);
    }
    if c in Cols(sh, n) && Cols(sh, n) <= Open(st) {
      var x :| x in sh.row[n] && x in sh.col && sh.col[x] == c;
      SameCols(sh, n, x);
      assert Linked(sh, st, x);
      OthersMembers(sh, x);
      assert x in xs && n in Others(sh, x);
    }
  }

  // Covering an open column closes it, hides the rows through it and keeps the mesh well formed.
  lemma CoverGood(sh: Shape, st: State, c: int)
    requires Good(sh, st) && c in Open(st)
    ensures c in sh.heads && Good(sh, Cover(sh, st, c))
    ensures Open(Cover(sh, st, c)) == Open(st) - {c} && |Cover(sh, st, c).head| == |st.head| - 1
    ensures ColumnNodes(Cover(sh, st, c), c) == ColumnNodes(st, c)
  {
    var xs, st1, st2 := ColumnNodes(st, c), UnlinkHead(st, c), Cover(sh, st, c);
    OpenIsHead(sh, st, c);
    UnlinkHeadWf(sh, st, c);
    ColumnCoverable(sh, st, c);
    HideRowsWf(sh, st1, c, xs);
    forall n | n in sh.col && sh.col[n] in Open(st2)
      ensures Linked(sh, st2, n) <==> Cols(sh, n) <= Open(st2)
    {
      CoverLinks(sh, st, c, n);
      LinkedAfter(sh, st1, st2, Struck(sh, xs), n);
    }
  }

  lemma LinkedAfter(sh: Shape, st: State, st': State, gone: set<int>, n: int)
    requires ShapeOk(sh) && Dropped(sh, st, st', gone) && n in sh.col
    ensures Linked(sh, st', n) <==> Linked(sh, st, n) && n !in gone
  {
    var c := sh.col[n];
    if c in st.ring {
      assert c in sh.heads && c in st'.ring;
    }
  }

  // ---------------------------------------------------------------- the states met inside cover and uncover

  // cover(c) after i whole rows.
  ghost function RowsHidden(sh: Shape, st: State, c: int, i: int): State
    requires 0 <= i <= |ColumnNodes(st, c)|
  {
    HideRows(sh, UnlinkHead(st, c), ColumnNodes(st, c)[..i])
  }

  // cover(c) after i whole rows and k nodes of the next one.
  ghost function NodesHidden(sh: Shape, st: State, c: int, i: int, k: int): State
    requires 0 <= i < |ColumnNodes(st, c)| && 0 <= k <= |Others(sh, ColumnNodes(st, c)[i])|
  {
    HideAll(sh, RowsHidden(sh, st, c, i), Others(sh, ColumnNodes(st, c)[i])[..k])
  }

  lemma OpenIsHead(sh: Shape, st: State, c: int)
    requires Wf(sh, st) && c in Open(st)
    ensures c in sh.heads && c in st.ring
  {
    assert HeadOk(sh, st.s, st.head);
  }

  lemma RowsHiddenWf(sh: Shape, st: State, c: int, i: int)
    requires Good(sh, st) && c in Open(st) && 0 <= i <= |ColumnNodes(st, c)|
    ensures c in sh.heads && ColumnOk(sh, RowsHidden(sh, st, c, i).s, c, [c] + ColumnNodes(st, c))
    ensures Wf(sh, RowsHidden(sh, st, c, i))
  {
    var xs, st1 := ColumnNodes(st, c), UnlinkHead(st, c);
    assert Wf(sh, st) && st1.ring == st.ring;
    hide Good, Wf, ColumnNodes, UnlinkHead, Open, HideRows, Linked, Dropped, Coverable, ColumnOk;
    OpenIsHead(sh, st, c);
    UnlinkHeadWf(sh, st, c);
    ColumnCoverable(sh, st, c);
    ColumnNodesOf(sh, st, c);
    CoverableTake(sh, st1, c, xs, i);
    HideRowsWf(sh, st1, c, xs[..i]);
    ColumnAt(sh, RowsHidden(sh, st, c, i), c);
  }

  lemma HideAllPrefix(sh: Shape, st: State, ys: seq<int>, k: int)
    requires Wf(sh, st) && Distinct(ys) && 0 <= k <= |ys| && forall y :: y in ys ==> Linked(sh, st, y)
    ensures Wf(sh, HideAll(sh, st, ys[..k]))
    ensures k < |ys| ==>
              && Linked(sh, HideAll(sh, st, ys[..k]), ys[k])
              && HideAll(sh, st, ys[..k + 1]) == HideNode(sh, HideAll(sh, st, ys[..k]), ys[k])
  {
    HideAllWf(sh, st, ys[..k]);
    if k < |ys| {
      assert ys[..k + 1][..k] == ys[..k];
      assert Linked(sh, st, ys[k]);
      LinkedColumn(sh, st, ys[k]);
      hide Wf, HideNode, Linked;
      StillLinked(sh, st, HideAll(sh, st, ys[..k]), Elems(ys[..k]), ys[k]);
    }
  }

  lemma NodesHiddenWf(sh: Shape, st: State, c: int, i: int, k: int)
    requires Good(sh, st) && c in Open(st) && 0 <= i < |ColumnNodes(st, c)|
    requires 0 <= k <= |Others(sh, ColumnNodes(st, c)[i])|
    ensures ColumnNodes(st, c)[i] in sh.row
    ensures Wf(sh, NodesHidden(sh, st, c, i, k))
    ensures k < |Others(sh, ColumnNodes(st, c)[i])| ==>
              && Linked(sh, NodesHidden(sh, st, c, i, k), Others(sh, ColumnNodes(st, c)[i])[k])
              && NodesHidden(sh, st, c, i, k + 1)
                 == HideNode(sh, NodesHidden(sh, st, c, i, k), Others(sh, ColumnNodes(st, c)[i])[k])
  {
    var x := ColumnNodes(st, c)[i];
    RowsHiddenWf(sh, st, c, i);
    ColumnNodesOf(sh, st, c);
    assert ShapeOk(sh) && x in ColumnNodes(st, c) && x in sh.row;
    RowWhole(sh, st, c, i);
    OthersMembers(sh, x);
    hide Wf, Good, RowsHidden, ColumnOk, Open, ColumnNodes, Linked, ShapeOk, HideNode, Others, HideAll;
    HideAllPrefix(sh, RowsHidden(sh, st, c, i), Others(sh, x), k);
  }

  // A row begun is the rows before it; a row finished is one row more.
  lemma NodesHiddenEnds(sh: Shape, st: State, c: int, i: int)
    requires 0 <= i < |ColumnNodes(st, c)|
    ensures NodesHidden(sh, st, c, i, 0) == RowsHidden(sh, st, c, i)
    ensures NodesHidden(sh, st, c, i, |Others(sh, ColumnNodes(st, c)[i])|) == RowsHidden(sh, st, c, i + 1)
  {
    var xs := ColumnNodes(st, c);
    var ys := Others(sh, xs[i]);
    assert ys[..|ys|] == ys && xs[..i + 1][..i] == xs[..i] && xs[..i + 1][i] == xs[i];
  }

  lemma RowWhole(sh: Shape, st: State, c: int, i: int)
    requires Good(sh, st) && c in Open(st) && 0 <= i < |ColumnNodes(st, c)|
    ensures forall y :: y in Others(sh, ColumnNodes(st, c)[i]) ==> Linked(sh, RowsHidden(sh, st, c, i), y)
  {
    hide Wf, ColumnNodes, UnlinkHead, Open, HideRows, Linked, Others, Coverable;
    OpenIsHead(sh, st, c);
    UnlinkHeadWf(sh, st, c);
    ColumnCoverable(sh, st, c);
    RowWholeIn(sh, UnlinkHead(st, c), c, ColumnNodes(st, c), i);
  }

  lemma RowWholeIn(sh: Shape, st: State, c: int, xs: seq<int>, i: int)
    requires Wf(sh, st) && Coverable(sh, st, c, xs) && 0 <= i < |xs|
    ensures forall y :: y in Others(sh, xs[i]) ==> Linked(sh, HideRows(sh, st, xs[..i]), y)
  {
    hide Wf, HideRows, Linked, Others, ShapeOk, Dropped, Coverable;
    var init, x := xs[..i], xs[i];
    CoverableTake(sh, st, c, xs, i + 1);
    assert xs[..i + 1] == init + [x];
    CoverablePrefix(sh, st, c, init, x);
    HideRowsWf(sh, st, c, init);
    ShapeAt(sh, st);
    forall y | y in Others(sh, x)
      ensures Linked(sh, HideRows(sh, st, init), y)
    {
      RowStillLinked(sh, st, HideRows(sh, st, init), c, init, x, y);
    }
  }

  lemma CoverableTake(sh: Shape, st: State, c: int, xs: seq<int>, i: int)
    requires Coverable(sh, st, c, xs) && 0 <= i <= |xs|
    ensures Coverable(sh, st, c, xs[..i])
  {
    assert forall x :: x in xs[..i] ==> x in xs;
  }

  // The first step of cover, and the last of uncover.
  lemma HeadStep(sh: Shape, st: State, c: int)
    requires Good(sh, st) && c in Open(st)
    ensures var s' := RowsHidden(sh, st, c, 0).s;
            SideBounded(st.s, c) && Unlink(st.s, c) == s' && SideBounded(s', c) && Relink(s', c) == st.s
    ensures RowsHidden(sh, st, c, |ColumnNodes(st, c)|) == Cover(sh, st, c)
  {
    hide Wf, Open, Unlink, Relink, ColumnNodes;
    UnlinkHeadWf(sh, st, c);
    assert RowsHidden(sh, st, c, 0) == UnlinkHead(st, c);
    assert ColumnNodes(st, c)[..|ColumnNodes(st, c)|] == ColumnNodes(st, c);
  }

  // Where the row loops of cover and uncover stand: position p of the row through x, seen in any state.
  lemma RowLinks(sh: Shape, st: State, x: int, p: int)
    requires Wf(sh, st) && x in sh.row && 0 <= p <= |Others(sh, x)|
    ensures var r := [x] + Others(sh, x);
            && 0 <= r[p] < |st.s| && 0 <= After(r, p) < |st.s|
            && st.s[r[p]].right == After(r, p) && st.s[After(r, p)].left == r[p]
            && (r[p] == x <==> p == 0) && (After(r, p) == x <==> p == |Others(sh, x)|)
            && r[p] in sh.col && st.s[r[p]].col == sh.col[r[p]]
  {
    hide Wf, HeadOk, ShapeOk, RowOk, Across;
    ShapeAt(sh, st);
    RowShape(sh, x);
    var r := sh.row[x];
    RowList(sh, x, p);
    AcrossAt(st.s, r, p);
  }

  lemma RowList(sh: Shape, x: int, p: int)
    requires ShapeOk(sh) && x in sh.row && 0 <= p <= |Others(sh, x)|
    ensures sh.row[x] == [x] + Others(sh, x) && sh.row[x][p] in sh.col
  {
    hide ShapeOk;
    RowShape(sh, x);
  }

  lemma AcrossAt(s: Pool, r: seq<int>, p: int)
    requires Across(s, r) && 0 <= p < |r|
    ensures 0 <= r[p] < |s| && 0 <= After(r, p) < |s| && s[r[p]].right == After(r, p) && s[After(r, p)].left == r[p]
    ensures (r[p] == r[0] <==> p == 0) && (After(r, p) == r[0] <==> p == |r| - 1)
  {
  }

  lemma RowPosition(sh: Shape, st: State, c: int, i: int, k: int, p: int)
    requires Good(sh, st) && c in Open(st) && 0 <= i < |ColumnNodes(st, c)|
    requires 0 <= k <= |Others(sh, ColumnNodes(st, c)[i])| && 0 <= p <= |Others(sh, ColumnNodes(st, c)[i])|
    ensures var s, x := NodesHidden(sh, st, c, i, k).s, ColumnNodes(st, c)[i];
            var r := [x] + Others(sh, x);
            && 0 <= r[p] < |s| && 0 <= After(r, p) < |s|
            && s[r[p]].right == After(r, p) && s[After(r, p)].left == r[p]
            && (r[p] == x <==> p == 0) && (After(r, p) == x <==> p == |Others(sh, x)|)
  {
    NodesHiddenWf(sh, st, c, i, k);
    RowLinks(sh, NodesHidden(sh, st, c, i, k), ColumnNodes(st, c)[i], p);
  }

  // Position p of column c, seen after i rows of it have been hidden.
  lemma ColumnPosition(sh: Shape, st: State, c: int, i: int, p: int)
    requires Good(sh, st) && c in Open(st) && 0 <= i <= |ColumnNodes(st, c)| && 0 <= p <= |ColumnNodes(st, c)|
    ensures var s, q := RowsHidden(sh, st, c, i).s, [c] + ColumnNodes(st, c);
            && 0 <= q[p] < |s| && 0 <= After(q, p) < |s|
            && s[q[p]].down == After(q, p) && s[After(q, p)].up == q[p]
            && (q[p] == c <==> p == 0) && (After(q, p) == c <==> p == |ColumnNodes(st, c)|)
  {
    RowsHiddenWf(sh, st, c, i);
    ColumnLinks(sh, RowsHidden(sh, st, c, i).s, c, ColumnNodes(st, c), p);
  }

  // The same for the column loops.
  lemma ColumnLinks(sh: Shape, s: Pool, c: int, xs: seq<int>, p: int)
    requires ColumnOk(sh, s, c, [c] + xs) && 0 <= p <= |xs|
    ensures var q := [c] + xs;
            && 0 <= q[p] < |s| && 0 <= After(q, p) < |s|
            && s[q[p]].down == After(q, p) && s[After(q, p)].up == q[p]
            && (q[p] == c <==> p == 0) && (After(q, p) == c <==> p == |xs|)
  {
  }

  // One step of the row loop of cover, and of uncover backwards.
  lemma NodeStep(sh: Shape, st: State, c: int, i: int, k: int)
    requires Good(sh, st) && c in Open(st) && 0 <= i < |ColumnNodes(st, c)|
    requires 0 <= k < |Others(sh, ColumnNodes(st, c)[i])|
    ensures var s, s', y := NodesHidden(sh, st, c, i, k).s, NodesHidden(sh, st, c, i, k + 1).s,
                            Others(sh, ColumnNodes(st, c)[i])[k];
            Bounded(s, y) && Hide(s, y) == s' && Bounded(s', y) && Show(s', y) == s
  {
    NodesHiddenWf(sh, st, c, i, k);
    var a, y := NodesHidden(sh, st, c, i, k), Others(sh, ColumnNodes(st, c)[i])[k];
    hide Wf, NodesHidden, Linked, Good;
    HideNodeWf(sh, a, y);
  }

  // ---------------------------------------------------------------- covering all columns of a row

  ghost function CoverCols(sh: Shape, st: State, ys: seq<int>): State {
    if ys == [] then st
    else if ys[|ys| - 1] in sh.col then Cover(sh, CoverCols(sh, st, ys[..|ys| - 1]), sh.col[ys[|ys| - 1]])
    else st
  }

  ghost function ColsOf(sh: Shape, ys: seq<int>): set<int> {
    set y | y in ys && y in sh.col :: sh.col[y]
  }

  ghost predicate OpenRow(sh: Shape, st: State, ys: seq<int>) {
    && (forall i :: 0 <= i < |ys| ==> ys[i] in sh.col && sh.col[ys[i]] in Open(st))
    && (forall i, j :: 0 <= i < j < |ys| ==> sh.col[ys[i]] != sh.col[ys[j]])
  }

  lemma {:induction false} CoverColsGood(sh: Shape, st: State, ys: seq<int>)
    requires Good(sh, st) && OpenRow(sh, st, ys)
    ensures Good(sh, CoverCols(sh, st, ys))
    ensures Open(CoverCols(sh, st, ys)) == Open(st) - ColsOf(sh, ys)
    ensures |CoverCols(sh, st, ys).head| == |st.head| - |ys|
  {
    hide Good, Cover, Open;
    if ys != [] {
      var init, y := ys[..|ys| - 1], ys[|ys| - 1];
      CoverColsGood(sh, st, init);
      assert forall z :: z in ys <==> z in init || z == y;
      assert ColsOf(sh, ys) == ColsOf(sh, init) + {sh.col[y]};
      CoverGood(sh, CoverCols(sh, st, init), sh.col[y]);
    }
  }

  lemma CoverColsStep(sh: Shape, st: State, ys: seq<int>, k: int)
    requires Good(sh, st) && OpenRow(sh, st, ys) && 0 <= k < |ys|
    ensures Good(sh, CoverCols(sh, st, ys[..k])) && sh.col[ys[k]] in Open(CoverCols(sh, st, ys[..k]))
    ensures CoverCols(sh, st, ys[..k + 1]) == Cover(sh, CoverCols(sh, st, ys[..k]), sh.col[ys[k]])
  {
    hide Good, Cover, Open;
    CoverColsGood(sh, st, ys[..k]);
    assert ys[..k + 1][..k] == ys[..k];
  }

  lemma CoverColsNone(sh: Shape, st: State)
    ensures CoverCols(sh, st, []) == st
  {
  }

  lemma RowAt(sh: Shape, st: State, x: int, ys: seq<int>, k: int, p: int)
    requires Good(sh, st) && OpenRow(sh, st, ys) && 0 <= k <= |ys| && x in sh.row && ys == Others(sh, x) && 0 <= p <= |ys|
    ensures var s, r := CoverCols(sh, st, ys[..k]).s, [x] + ys;
            && 0 <= r[p] < |s| && 0 <= After(r, p) < |s|
            && s[r[p]].right == After(r, p) && s[After(r, p)].left == r[p]
            && (r[p] == x <==> p == 0) && (After(r, p) == x <==> p == |ys|)
            && r[p] in sh.col && s[r[p]].col == sh.col[r[p]]
  {
    hide Wf, Open, Others, CoverCols;
    assert OpenRow(sh, st, ys[..k]);
    CoverColsGood(sh, st, ys[..k]);
    RowLinks(sh, CoverCols(sh, st, ys[..k]), x, p);
  }

  // The row through a node met in a freshly covered column: its other columns are open, and with c they are all its columns.
  lemma RowIsOpen(sh: Shape, st: State, c: int, x: int)
    requires Good(sh, st) && c in Open(st) && x in ColumnNodes(st, c)
    ensures x in sh.row && sh.col[x] == c && Cols(sh, x) <= Open(st)
    ensures OpenRow(sh, Cover(sh, st, c), Others(sh, x))
    ensures Cols(sh, x) == {c} + ColsOf(sh, Others(sh, x))
  {
    hide Wf, Open, Cover, ColumnNodes, Cols;
    OpenIsHead(sh, st, c);
    ColumnNodesOf(sh, st, c);
    CoverGood(sh, st, c);
    ShapeAt(sh, st);
    hide Good, HeadOk, RowsOk, ShapeOk, Linked;
    NodeShape(sh, x);
    RowColumns(sh, x);
    var ys := Others(sh, x);
    forall i | 0 <= i < |ys|
      ensures ys[i] in sh.col && sh.col[ys[i]] in Open(st) - {c}
    {
      assert ys[i] in ys;
    }
  }

  lemma RowColumns(sh: Shape, x: int)
    requires ShapeOk(sh) && x in sh.row
    ensures x in sh.col && Cols(sh, x) == {sh.col[x]} + ColsOf(sh, Others(sh, x))
    ensures var ys := Others(sh, x);
            && (forall y :: y in ys ==> y in sh.col && sh.col[y] != sh.col[x] && sh.col[y] in Cols(sh, x))
            && (forall i, j :: 0 <= i < j < |ys| ==> sh.col[ys[i]] != sh.col[ys[j]])
  {
    RowShape(sh, x);
    OthersMembers(sh, x);
    hide ShapeOk;
    var ys := Others(sh, x);
    assert sh.row[x] == [x] + ys;
    assert forall y :: y in sh.row[x] <==> y == x || y in ys;
    forall i, j | 0 <= i < j < |ys|
      ensures sh.col[ys[i]] != sh.col[ys[j]]
    {
      assert ys[i] == sh.row[x][i + 1] && ys[j] == sh.row[x][j + 1];
    }
  }

  // ---------------------------------------------------------------- exact covers

  ghost predicate Meets(sh: Shape, picks: seq<int>, c: int) {
    exists i :: 0 <= i < |picks| && c in Cols(sh, picks[i])
  }

  // The rows through `picks` use only columns of u, no two of them share one, and every column of u is used.
  ghost predicate ExactCover(sh: Shape, u: set<int>, picks: seq<int>) {
    && (forall i :: 0 <= i < |picks| ==> picks[i] in sh.row && Cols(sh, picks[i]) <= u)
    && (forall i, j :: 0 <= i < j < |picks| ==> Cols(sh, picks[i]) !! Cols(sh, picks[j]))
    && (forall c :: c in u ==> Meets(sh, picks, c))
  }

  ghost predicate HasExactCover(sh: Shape, u: set<int>) {
    exists picks :: ExactCover(sh, u, picks)
  }

  lemma AddRow(sh: Shape, u: set<int>, n: int, rest: seq<int>)
    requires n in sh.row && Cols(sh, n) <= u && ExactCover(sh, u - Cols(sh, n), rest)
    ensures ExactCover(sh, u, [n] + rest)
  {
    var picks := [n] + rest;
    forall c | c in u
      ensures Meets(sh, picks, c)
    {
      if c in Cols(sh, n) {
        assert c in Cols(sh, picks[0]);
      } else {
        assert c in u - Cols(sh, n);
        var i :| 0 <= i < |rest| && c in Cols(sh, rest[i]);
        assert c in Cols(sh, picks[i + 1]);
      }
    }
  }

  // Some row of an exact cover meets column c; without it the cover is one of the remaining columns.
  lemma TakeRow(sh: Shape, u: set<int>, c: int, picks: seq<int>) returns (n: int, rest: seq<int>)
    requires ShapeOk(sh) && c in u && ExactCover(sh, u, picks)
    ensures n in sh.col && sh.col[n] == c && Cols(sh, n) <= u && c in Cols(sh, n)
    ensures ExactCover(sh, u - Cols(sh, n), rest)
  {
    assert Meets(sh, picks, c);
    var k :| 0 <= k < |picks| && c in Cols(sh, picks[k]);
    n :| n in sh.row[picks[k]] && n in sh.col && sh.col[n] == c;
    SameCols(sh, picks[k], n);
    rest := DropPick(sh, u, picks, k);
  }

  lemma DropPick(sh: Shape, u: set<int>, picks: seq<int>, k: int) returns (rest: seq<int>)
    requires ExactCover(sh, u, picks) && 0 <= k < |picks|
    ensures ExactCover(sh, u - Cols(sh, picks[k]), rest)
  {
    hide Cols;
    rest := picks[..k] + picks[k + 1..];
    var used := Cols(sh, picks[k]);
    assert forall i :: 0 <= i < |rest| ==> rest[i] == picks[if i < k then i else i + 1];
    forall i | 0 <= i < |rest|
      ensures rest[i] in sh.row && Cols(sh, rest[i]) <= u - used
    {
      assert rest[i] == picks[if i < k then i else i + 1];
    }
    forall d | d in u - used
      ensures Meets(sh, rest, d)
    {
      assert Meets(sh, picks, d);
      var i :| 0 <= i < |picks| && d in Cols(sh, picks[i]);
      assert rest[if i < k then i else i - 1] == picks[i];
    }
  }

  // ---------------------------------------------------------------- what a row stands for

  // Going right from n, the row names one cell below 100 and, with its other names, one digit.
  ghost predicate Named(sh: Shape, n: int, cell: int, digit: int) {
    && n in sh.row
    && (forall x :: x in sh.row[n] ==> x in sh.name && 0 <= sh.name[x])
    && (forall x :: x in sh.row[n] ==> if sh.name[x] < 100 then sh.name[x] == cell else sh.name[x] % 10 == digit)
    && (exists x :: x in sh.row[n] && sh.name[x] < 100)
    && (exists x :: x in sh.row[n] && sh.name[x] >= 100)
  }

  ghost predicate AllNamed(sh: Shape, cell: map<int, int>, digit: map<int, int>, size: int) {
    forall n :: n in sh.row ==> n in cell && n in digit && 0 <= cell[n] < size && Named(sh, n, cell[n], digit[n])
  }

  // Writing down the digits of the picked rows.
  ghost function Written(b: seq<int>, cell: map<int, int>, digit: map<int, int>, picks: seq<int>): (r: seq<int>)
    ensures |r| == |b|
  {
    if picks == [] then b
    else
      var n := picks[|picks| - 1];
      var w := Written(b, cell, digit, picks[..|picks| - 1]);
      if n in cell && n in digit && 0 <= cell[n] < |w| then w[cell[n] := digit[n]] else w
  }

  lemma RowNames(sh: Shape, st: State, n: int, cell: int, digit: int, p: int)
    requires Wf(sh, st) && Named(sh, n, cell, digit) && 0 <= p <= |Others(sh, n)|
    ensures var r := [n] + Others(sh, n);
            && 0 <= r[p] < |st.s| && st.s[r[p]].right == After(r, p) && r[p] in sh.name && st.s[r[p]].name == sh.name[r[p]]
            && (if sh.name[r[p]] < 100 then sh.name[r[p]] == cell else sh.name[r[p]] % 10 == digit) && sh.name[r[p]] >= 0
    ensures cell >= 0 && digit >= 0
  {
    hide Wf, Others, HeadOk, ShapeOk;
    RowLinks(sh, st, n, p);
    ShapeAt(sh, st);
    RowList(sh, n, p);
    assert sh.row[n][p] in sh.row[n];
    hide Across;
  }

  lemma RowNamesBoth(sh: Shape, st: State, n: int, cell: int, digit: int)
    requires Wf(sh, st) && Named(sh, n, cell, digit)
    ensures var r := [n] + Others(sh, n);
            exists i, k :: 0 <= i < |r| && 0 <= k < |r| && r[i] in sh.name && r[k] in sh.name && sh.name[r[i]] < 100 <= sh.name[r[k]]
  {
    hide Wf, ShapeOk, HeadOk, RowsOk;
    ShapeAt(sh, st);
    RowList(sh, n, 0);
    var r := sh.row[n];
    var x :| x in r && sh.name[x] < 100;
    var y :| y in r && sh.name[y] >= 100;
    assert r[IndexOf(r, x)] == x && r[IndexOf(r, y)] == y;
  }

  // ---------------------------------------------------------------- one level of the search

  // If no row of column c leads to an exact cover, there is none.
  lemma NoRowNoCover(sh: Shape, st: State, c: int)
    requires Good(sh, st) && c in Open(st)
    requires forall x :: x in ColumnNodes(st, c) ==> !HasExactCover(sh, Open(st) - Cols(sh, x))
    ensures !HasExactCover(sh, Open(st))
  {
    if HasExactCover(sh, Open(st)) {
      var picks :| ExactCover(sh, Open(st), picks);
      var n, rest := TakeRow(sh, Open(st), c, picks);
      OpenIsHead(sh, st, c);
      ColumnNodesOf(sh, st, c);
      assert Linked(sh, st, n);
      assert n in ColumnNodes(st, c);
      assert HasExactCover(sh, Open(st) - Cols(sh, n));
      assert false;
    }
  }

  lemma NothingOpen(sh: Shape, st: State)
    requires Wf(sh, st)
    ensures 0 <= sh.root < |st.s| && (st.s[sh.root].left == sh.root <==> |st.head| == 1) && |st.head| > 0
    ensures |st.head| == 1 ==> ExactCover(sh, Open(st), [])
  {
    var h := st.head;
    assert After(h, |h| - 1) == h[0];
  }

  lemma HeadAt(sh: Shape, st: State, k: int)
    requires Wf(sh, st) && 0 <= k < |st.head|
    ensures 0 <= st.head[k] < |st.s| && st.s[st.head[k]].right == After(st.head, k) && (After(st.head, k) == sh.root <==> k == |st.head| - 1)
    ensures st.head[0] == sh.root && (k > 0 ==> st.head[k] in Open(st))
  {
    hide ColumnsOk, RowsOk, ShapeOk;
  }

  // A size not above that of any header seen is not above that of any open column.
  lemma SmallestOpen(sh: Shape, st: State, m: int)
    requires Wf(sh, st)
    requires m <= 1 || forall i :: 1 <= i < |st.head| && 0 <= st.head[i] < |st.s| ==> m <= st.s[st.head[i]].size
    ensures forall d :: d in Open(st) ==> 0 <= d < |st.s| && (m <= st.s[d].size || m <= 1)
  {
    ShapeAt(sh, st);
    hide Wf, RowsOk, ShapeOk;
  }

  // The search goes down one row: with that row's columns covered, a cover of the rest is a cover of all.
  lemma RowTaken(sh: Shape, st: State, c: int, x: int)
    requires Good(sh, st) && c in Open(st) && x in ColumnNodes(st, c)
    ensures var st1 := Cover(sh, st, c);
            && Good(sh, st1) && x in sh.row && OpenRow(sh, st1, Others(sh, x))
            && Good(sh, CoverCols(sh, st1, Others(sh, x)))
            && Open(CoverCols(sh, st1, Others(sh, x))) == Open(st) - Cols(sh, x)
            && |CoverCols(sh, st1, Others(sh, x)).head| < |st.head|
    ensures forall rest :: ExactCover(sh, Open(st) - Cols(sh, x), rest) ==> ExactCover(sh, Open(st), [x] + rest)
  {
    hide Good, OpenRow, CoverCols, Others, Cover, Open, Cols, ColumnNodes, ExactCover;
    CoverGood(sh, st, c);
    RowIsOpen(sh, st, c, x);
    CoverColsGood(sh, Cover(sh, st, c), Others(sh, x));
    forall rest | ExactCover(sh, Open(st) - Cols(sh, x), rest)
      ensures ExactCover(sh, Open(st), [x] + rest)
    {
      AddRow(sh, Open(st), x, rest);
    }
  }

  // Position p of column c once c is covered.
  lemma CoveredPosition(sh: Shape, st: State, c: int, p: int)
    requires Good(sh, st) && c in Open(st) && 0 <= p <= |ColumnNodes(st, c)|
    ensures var s, q := Cover(sh, st, c).s, [c] + ColumnNodes(st, c);
            && 0 <= q[p] < |s| && 0 <= After(q, p) < |s|
            && s[q[p]].down == After(q, p) && (After(q, p) == c <==> p == |ColumnNodes(st, c)|)
  {
    hide Good, Open, ColumnNodes, Cover, RowsHidden;
    HeadStep(sh, st, c);
    ColumnPosition(sh, st, c, |ColumnNodes(st, c)|, p);
  }

  lemma AfterAt(c: int, xs: seq<int>, i: int)
    requires 0 <= i < |xs|
    ensures After([c] + xs, i) == xs[i] && xs[i] in xs
    ensures forall x :: x in xs[..i + 1] <==> x in xs[..i] || x == xs[i]
  {
    assert xs[..i + 1] == xs[..i] + [xs[i]];
  }
}
