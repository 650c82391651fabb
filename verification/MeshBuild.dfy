/** Growing a mesh: appending a header, a row node at the bottom of a column, and closing a row. */
module MeshBuild {
  import opened Mesh

  // The four assignments that insert nnew to the left of old.
  ghost function PutLeft(s: Pool, oldNode: int, nnew: int): (t: Pool)
    requires 0 <= oldNode < |s| && 0 <= nnew < |s| && 0 <= s[oldNode].left < |s| && oldNode != nnew
    ensures |t| == |s|
  {
    var s1 := s[nnew := s[nnew].(left := s[oldNode].left, right := oldNode)];
    var s2 := s1[s1[oldNode].left := s1[s1[oldNode].left].(right := nnew)];
    s2[oldNode := s2[oldNode].(left := nnew)]
  }

  // The six assignments that put nnew at the bottom of column c.
  ghost function PutUp(s: Pool, c: int, nnew: int): (t: Pool)
    requires 0 <= c < |s| && 0 <= nnew < |s| && 0 <= s[c].up < |s| && c != nnew
    ensures |t| == |s|
  {
    var s1 := s[nnew := s[nnew].(up := s[c].up, down := c)];
    var s2 := s1[s1[c].up := s1[s1[c].up].(down := nnew)];
    var s3 := s2[c := s2[c].(up := nnew, size := s2[c].size + 1)];
    s3[nnew := s3[nnew].(col := c)]
  }

  lemma PutLeftEffect(s: Pool, oldNode: int, nnew: int)
    requires 0 <= oldNode < |s| && 0 <= nnew < |s| && 0 <= s[oldNode].left < |s| && oldNode != nnew && s[oldNode].left != nnew
    ensures forall n :: 0 <= n < |s| ==>
              var t := PutLeft(s, oldNode, nnew)[n];
              && t.up == s[n].up && t.down == s[n].down && t.col == s[n].col && t.name == s[n].name && t.size == s[n].size
              && t.left == (if n == nnew then s[oldNode].left else if n == oldNode then nnew else s[n].left)
              && t.right == (if n == nnew then oldNode else if n == s[oldNode].left then nnew else s[n].right)
  {
  }

  lemma PutUpEffect(s: Pool, c: int, nnew: int)
    requires 0 <= c < |s| && 0 <= nnew < |s| && 0 <= s[c].up < |s| && c != nnew && s[c].up != nnew
    ensures forall n :: 0 <= n < |s| ==>
              var t := PutUp(s, c, nnew)[n];
              && t.left == s[n].left && t.right == s[n].right && t.name == s[n].name
              && t.col == (if n == nnew then c else s[n].col)
              && t.size == (if n == c then s[n].size + 1 else s[n].size)
              && t.up == (if n == nnew then s[c].up else if n == c then nnew else s[n].up)
              && t.down == (if n == nnew then c else if n == s[c].up then nnew else s[n].down)
  {
  }

  lemma AppendAcross(s: Pool, q: seq<int>, r: int)
    requires Across(s, q) && 0 <= r < |s| && r !in q
    ensures s[q[0]].left == q[|q| - 1]
    ensures Across(PutLeft(s, q[0], r), q + [r])
  {
    assert After(q, |q| - 1) == q[0];
    PutLeftEffect(s, q[0], r);
    hide PutLeft;
    var t, p := PutLeft(s, q[0], r), q + [r];
    forall i | 0 <= i < |p|
      ensures t[p[i]].right == After(p, i) && t[After(p, i)].left == p[i]
    {
      if i < |q| - 1 {
        assert s[q[i]].right == After(q, i) && s[After(q, i)].left == q[i];
      }
    }
  }

  lemma AppendDownward(s: Pool, q: seq<int>, r: int)
    requires Downward(s, q) && 0 <= r < |s| && r !in q
    ensures s[q[0]].up == q[|q| - 1]
    ensures Downward(PutUp(s, q[0], r), q + [r])
  {
    assert After(q, |q| - 1) == q[0];
    PutUpEffect(s, q[0], r);
    hide PutUp;
    var t, p := PutUp(s, q[0], r), q + [r];
    forall i | 0 <= i < |p|
      ensures t[p[i]].down == After(p, i) && t[After(p, i)].up == p[i]
    {
      if i < |q| - 1 {
        assert s[q[i]].down == After(q, i) && s[After(q, i)].up == q[i];
      }
    }
  }

  lemma SameAcross(s: Pool, t: Pool, q: seq<int>)
    requires Across(s, q) && |t| == |s| && forall x :: x in q && 0 <= x < |s| ==> t[x].left == s[x].left && t[x].right == s[x].right
    ensures Across(t, q)
  {
    forall i | 0 <= i < |q|
      ensures t[q[i]].right == After(q, i) && t[After(q, i)].left == q[i]
    {
      assert q[i] in q && After(q, i) in q;
    }
  }

  lemma SameDownward(s: Pool, t: Pool, q: seq<int>)
    requires Downward(s, q) && |t| == |s| && forall x :: x in q && 0 <= x < |s| ==> t[x].up == s[x].up && t[x].down == s[x].down
    ensures Downward(t, q)
  {
    forall i | 0 <= i < |q|
      ensures t[q[i]].down == After(q, i) && t[After(q, i)].up == q[i]
    {
      assert q[i] in q && After(q, i) in q;
    }
  }

  // ---------------------------------------------------------------- a mesh under construction

  // The nodes below cur are in use; those in `openNodes` are in their column but in no row yet.
  ghost predicate Used(sh: Shape, cur: int, openNodes: set<int>) {
    && sh.root == 0 && 0 < cur && sh.root !in sh.heads && sh.root !in sh.col && sh.heads !! sh.col.Keys
    && (forall h :: h in sh.heads ==> 0 < h < cur)
    && (forall n :: n in sh.col ==> 0 < n < cur && sh.col[n] in sh.heads)
    && sh.col.Keys == sh.row.Keys + openNodes && sh.row.Keys !! openNodes && sh.name.Keys == sh.col.Keys
    && (forall n :: n in sh.row ==> RowOk(sh, n))
  }

  ghost predicate Whole(sh: Shape, st: State) {
    && st.ring.Keys == sh.heads && Open(st) == sh.heads
    && forall n :: n in sh.col ==> Linked(sh, st, n)
  }

  ghost predicate Building(sh: Shape, st: State, cur: int, openNodes: set<int>) {
    && Used(sh, cur, openNodes) && cur <= |st.s|
    && RowsOk(sh, st.s) && HeadOk(sh, st.s, st.head) && ColumnsOk(sh, st.s, st.ring) && Whole(sh, st)
  }

  lemma BuiltIsGood(sh: Shape, st: State, cur: int)
    requires Building(sh, st, cur, {})
    ensures Good(sh, st)
  {
    hide RowsOk, HeadOk, ColumnsOk;
    assert ShapeOk(sh);
    forall n | n in sh.col
      ensures Cols(sh, n) <= sh.heads
    {
      assert RowOk(sh, n);
    }
  }

  // The empty mesh: the root alone.
  lemma BuildStart(s: Pool)
    requires |s| > 0 && s[0].left == 0 && s[0].right == 0
    ensures Building(Shape(0, {}, map[], map[], map[]), State(s, [0], map[]), 1, {})
  {
  }

  ghost function WithHead(sh: Shape, c: int): Shape { sh.(heads := sh.heads + {c}) }

  ghost function FreshAt(s: Pool, r: int, name: int): (t: Pool)
    requires 0 <= r < |s|
    ensures |t| == |s|
  {
    s[r := Node(r, r, r, r, r, name, 0)]
  }

  // ---------------------------------------------------------------- a new column

  // A link change that no ring node sees leaves the rings as they are.
  ghost predicate SameRows(sh: Shape, s: Pool, t: Pool) {
    && |t| == |s|
    && forall n :: n in sh.col && 0 <= n < |s| ==>
         t[n].left == s[n].left && t[n].right == s[n].right && t[n].col == s[n].col && t[n].name == s[n].name
  }

  lemma RowsStay(sh: Shape, s: Pool, t: Pool)
    requires RowsOk(sh, s) && SameRows(sh, s, t) && sh.name.Keys == sh.col.Keys
    requires forall n :: n in sh.row ==> RowOk(sh, n)
    ensures RowsOk(sh, t)
  {
    forall n | n in sh.row
      ensures Across(t, sh.row[n])
    {
      assert RowOk(sh, n) && Across(s, sh.row[n]);
      SameAcross(s, t, sh.row[n]);
    }
  }

  lemma ColumnStays(sh: Shape, sh': Shape, s: Pool, t: Pool, c: int, q: seq<int>)
    requires ColumnOk(sh, s, c, q) && |t| == |s|
    requires forall x :: x in q && 0 <= x < |s| ==> t[x].up == s[x].up && t[x].down == s[x].down && t[x].size == s[x].size
    requires forall n :: n in sh.col ==> n in sh'.col && sh'.col[n] == sh.col[n]
    ensures ColumnOk(sh', t, c, q)
  {
    SameDownward(s, t, q);
    assert c == q[0] && c in q;
    hide Downward;
  }

  lemma RingBelow(sh: Shape, st: State, cur: int, openNodes: set<int>, c: int)
    requires Building(sh, st, cur, openNodes) && c in sh.heads
    ensures c in st.ring && ColumnOk(sh, st.s, c, st.ring[c]) && forall x :: x in st.ring[c] ==> 0 <= x < cur
  {
    hide RowsOk, HeadOk, Whole;
    var q := st.ring[c];
    assert ColumnOk(sh, st.s, c, q);
    hide ColumnsOk;
    forall x | x in q
      ensures 0 <= x < cur
    {
      var i := IndexOf(q, x);
    }
  }

  lemma HeadBelow(sh: Shape, st: State, cur: int, openNodes: set<int>)
    requires Building(sh, st, cur, openNodes)
    ensures Across(st.s, st.head) && st.head[0] == 0 && forall x :: x in st.head ==> 0 <= x < cur && x !in sh.col
    ensures 0 <= st.s[0].left < cur && st.s[0].left !in sh.col
  {
    hide RowsOk, ColumnsOk, Whole;
    var h := st.head;
    forall x | x in h
      ensures 0 <= x < cur && x !in sh.col
    {
      var i := IndexOf(h, x);
    }
    assert After(h, |h| - 1) == 0 && h[|h| - 1] in h;
  }

  ghost function HeadAdded(s: Pool, cur: int, name: int): (t: Pool)
    requires 0 < cur < |s| && 0 <= s[0].left < cur
    ensures |t| == |s|
  {
    PutLeft(FreshAt(s, cur, name), 0, cur)
  }

  lemma HeadAddedEffect(s: Pool, cur: int, name: int)
    requires 0 < cur < |s| && 0 <= s[0].left < cur
    ensures forall n :: 0 <= n < cur ==>
              var t := HeadAdded(s, cur, name)[n];
              && t.up == s[n].up && t.down == s[n].down && t.col == s[n].col && t.name == s[n].name && t.size == s[n].size
              && (n != 0 ==> t.left == s[n].left) && (n != s[0].left ==> t.right == s[n].right)
    ensures var t := HeadAdded(s, cur, name)[cur]; t.up == cur && t.down == cur && t.size == 0
  {
    PutLeftEffect(FreshAt(s, cur, name), 0, cur);
  }

  lemma AppendHead(sh: Shape, st: State, cur: int, openNodes: set<int>, name: int)
    requires Building(sh, st, cur, openNodes) && cur < |st.s|
    ensures 0 <= st.s[0].left < cur
    ensures Building(WithHead(sh, cur), State(HeadAdded(st.s, cur, name), st.head + [cur], st.ring[cur := [cur]]), cur + 1, openNodes)
  {
    hide RowsOk, HeadOk, ColumnsOk, Whole, HeadAdded;
    HeadBelow(sh, st, cur, openNodes);
    var s, t := st.s, HeadAdded(st.s, cur, name);
    var sh' := WithHead(sh, cur);
    var st' := State(t, st.head + [cur], st.ring[cur := [cur]]);
    HeadAddedEffect(s, cur, name);
    assert Used(sh', cur + 1, openNodes);
    assert RowsOk(sh', t) by { RowsStay(sh, s, t); RowsSame(sh, sh', t); }
    AppendHeadRing(sh, st, cur, openNodes, name);
    AppendHeadColumns(sh, st, cur, openNodes, name);
    AppendHeadWhole(sh, st, cur, t);
  }

  lemma RowsSame(sh: Shape, sh': Shape, s: Pool)
    requires RowsOk(sh, s) && sh'.row == sh.row && sh'.col == sh.col && sh'.name == sh.name
    ensures RowsOk(sh', s)
  {
    hide Across;
  }

  lemma AppendHeadRing(sh: Shape, st: State, cur: int, openNodes: set<int>, name: int)
    requires Building(sh, st, cur, openNodes) && cur < |st.s| && 0 <= st.s[0].left < cur
    ensures HeadOk(WithHead(sh, cur), HeadAdded(st.s, cur, name), st.head + [cur])
  {
    HeadBelow(sh, st, cur, openNodes);
    var s1 := FreshAt(st.s, cur, name);
    SameAcross(st.s, s1, st.head);
    AppendAcross(s1, st.head, cur);
    hide Across, RowsOk, ColumnsOk, Whole, PutLeft;
  }

  lemma AppendHeadColumns(sh: Shape, st: State, cur: int, openNodes: set<int>, name: int)
    requires Building(sh, st, cur, openNodes) && cur < |st.s| && 0 <= st.s[0].left < cur
    ensures ColumnsOk(WithHead(sh, cur), HeadAdded(st.s, cur, name), st.ring[cur := [cur]])
  {
    hide RowsOk, HeadOk, ColumnsOk, HeadAdded;
    HeadAddedEffect(st.s, cur, name);
    var sh', t := WithHead(sh, cur), HeadAdded(st.s, cur, name);
    forall c | c in sh'.heads
      ensures c in st.ring[cur := [cur]] && ColumnOk(sh', t, c, st.ring[cur := [cur]][c])
    {
      if c != cur {
        RingBelow(sh, st, cur, openNodes, c);
        ColumnStays(sh, sh', st.s, t, c, st.ring[c]);
      }
    }
    hide Used, Whole, ColumnOk;
    assert ColumnsOk(sh', t, st.ring[cur := [cur]]) by { AllColumns(sh', t, st.ring[cur := [cur]]); }
  }

  lemma AllColumns(sh: Shape, s: Pool, ring: map<int, seq<int>>)
    requires forall c :: c in sh.heads ==> c in ring && ColumnOk(sh, s, c, ring[c])
    ensures ColumnsOk(sh, s, ring)
  {
  }

  lemma AppendHeadWhole(sh: Shape, st: State, cur: int, t: Pool)
    requires Whole(sh, st) && cur !in sh.heads && (forall n :: n in sh.col ==> sh.col[n] in sh.heads) && |st.head| > 0
    ensures Whole(WithHead(sh, cur), State(t, st.head + [cur], st.ring[cur := [cur]]))
  {
    var h' := st.head + [cur];
    assert h'[|st.head|] == cur;
    assert forall i :: 1 <= i < |st.head| ==> h'[i] == st.head[i];
    assert Open(State(t, h', st.ring)) == Open(st) + {cur};
  }

  // ---------------------------------------------------------------- a new node in a column

  ghost function WithNode(sh: Shape, r: int, c: int, name: int): Shape {
    sh.(col := sh.col[r := c], name := sh.name[r := name])
  }

  ghost function NodeAdded(s: Pool, cur: int, c: int, name: int): (t: Pool)
    requires 0 < cur < |s| && 0 <= c < cur && 0 <= s[c].up < cur
    ensures |t| == |s|
  {
    PutUp(FreshAt(s, cur, name), c, cur)
  }

  lemma NodeAddedEffect(s: Pool, cur: int, c: int, name: int)
    requires 0 < cur < |s| && 0 <= c < cur && 0 <= s[c].up < cur
    ensures forall n :: 0 <= n < cur ==>
              var t := NodeAdded(s, cur, c, name)[n];
              && t.left == s[n].left && t.right == s[n].right && t.col == s[n].col && t.name == s[n].name
              && (n != c ==> t.up == s[n].up && t.size == s[n].size) && (n != s[c].up ==> t.down == s[n].down)
    ensures NodeAdded(s, cur, c, name)[c].size == s[c].size + 1
    ensures var t := NodeAdded(s, cur, c, name)[cur]; t.left == cur && t.right == cur && t.col == c && t.name == name
  {
    PutUpEffect(FreshAt(s, cur, name), c, cur);
  }

  lemma AppendToColumn(sh: Shape, st: State, cur: int, openNodes: set<int>, c: int, name: int)
    requires Building(sh, st, cur, openNodes) && cur < |st.s| && c in sh.heads
    ensures 0 <= c < cur && 0 <= st.s[c].up < cur && c in st.ring
    ensures Building(WithNode(sh, cur, c, name), State(NodeAdded(st.s, cur, c, name), st.head, st.ring[c := st.ring[c] + [cur]]),
                     cur + 1, openNodes + {cur})
  {
    hide RowsOk, HeadOk, ColumnsOk, Whole, NodeAdded;
    ColumnTop(sh, st, cur, openNodes, c);
    var s, t := st.s, NodeAdded(st.s, cur, c, name);
    var sh' := WithNode(sh, cur, c, name);
    NodeAddedEffect(s, cur, c, name);
    assert Used(sh', cur + 1, openNodes + {cur}) by { UsedGrows(sh, cur, openNodes, c, name); }
    assert RowsOk(sh', t) by { RowsGrow(sh, s, t, cur, openNodes, c, name); }
    assert HeadOk(sh', t, st.head) by { HeadStays(sh, st, cur, openNodes, c, name); }
    AppendToRings(sh, st, cur, openNodes, c, name);
    AppendToWhole(sh, st, t, cur, c, name);
  }

  lemma ColumnTop(sh: Shape, st: State, cur: int, openNodes: set<int>, c: int)
    requires Building(sh, st, cur, openNodes) && c in sh.heads
    ensures 0 <= c < cur && 0 <= st.s[c].up < cur && c in st.ring && st.ring[c] != [] && st.s[c].up in st.ring[c]
  {
    RingBelow(sh, st, cur, openNodes, c);
    hide Building;
    var q := st.ring[c];
    assert After(q, |q| - 1) == c && q[|q| - 1] in q && q[0] in q;
  }

  lemma UsedGrows(sh: Shape, cur: int, openNodes: set<int>, c: int, name: int)
    requires Used(sh, cur, openNodes) && c in sh.heads
    ensures Used(WithNode(sh, cur, c, name), cur + 1, openNodes + {cur})
  {
    var sh' := WithNode(sh, cur, c, name);
    forall n | n in sh'.row
      ensures RowOk(sh', n)
    {
      assert RowOk(sh, n);
    }
    hide RowOk;
  }

  lemma RowsGrow(sh: Shape, s: Pool, t: Pool, cur: int, openNodes: set<int>, c: int, name: int)
    requires Used(sh, cur, openNodes) && RowsOk(sh, s) && |t| == |s| && cur < |s|
    requires forall n :: 0 <= n < cur ==> t[n].left == s[n].left && t[n].right == s[n].right && t[n].col == s[n].col && t[n].name == s[n].name
    requires t[cur].col == c && t[cur].name == name
    ensures RowsOk(WithNode(sh, cur, c, name), t)
  {
    RowsStay(sh, s, t);
    hide RowOk, Across;
  }

  lemma HeadStays(sh: Shape, st: State, cur: int, openNodes: set<int>, c: int, name: int)
    requires Building(sh, st, cur, openNodes) && cur < |st.s| && 0 <= c < cur && 0 <= st.s[c].up < cur
    ensures HeadOk(WithNode(sh, cur, c, name), NodeAdded(st.s, cur, c, name), st.head)
  {
    HeadBelow(sh, st, cur, openNodes);
    NodeAddedEffect(st.s, cur, c, name);
    hide NodeAdded, RowsOk, ColumnsOk, Whole;
    SameAcross(st.s, NodeAdded(st.s, cur, c, name), st.head);
    hide Across;
  }

  lemma AppendToRings(sh: Shape, st: State, cur: int, openNodes: set<int>, c: int, name: int)
    requires Building(sh, st, cur, openNodes) && cur < |st.s| && c in sh.heads && c in st.ring && 0 <= c < cur && 0 <= st.s[c].up < cur
    ensures ColumnsOk(WithNode(sh, cur, c, name), NodeAdded(st.s, cur, c, name), st.ring[c := st.ring[c] + [cur]])
  {
    hide RowsOk, HeadOk, ColumnsOk, NodeAdded, ColumnOk, Whole;
    var sh', t, ring' := WithNode(sh, cur, c, name), NodeAdded(st.s, cur, c, name), st.ring[c := st.ring[c] + [cur]];
    forall d | d in sh'.heads
      ensures d in ring' && ColumnOk(sh', t, d, ring'[d])
    {
      RingBelow(sh, st, cur, openNodes, d);
      if d == c {
        AppendToRing(sh, st.s, st.ring[c], cur, c, name);
      } else {
        OtherRing(sh, st, cur, openNodes, c, d, name);
      }
    }
    AllColumns(sh', t, ring');
  }

  lemma AppendToRing(sh: Shape, s: Pool, q: seq<int>, cur: int, c: int, name: int)
    requires ColumnOk(sh, s, c, q) && (forall x :: x in q ==> 0 <= x < cur) && 0 < cur < |s| && 0 <= c < cur && 0 <= s[c].up < cur
    requires forall n :: n in sh.col ==> n < cur
    ensures ColumnOk(WithNode(sh, cur, c, name), NodeAdded(s, cur, c, name), c, q + [cur])
  {
    var s1 := FreshAt(s, cur, name);
    SameDownward(s, s1, q);
    AppendDownward(s1, q, cur);
    NodeAddedEffect(s, cur, c, name);
    hide Downward, PutUp;
  }

  lemma OtherRing(sh: Shape, st: State, cur: int, openNodes: set<int>, c: int, d: int, name: int)
    requires Building(sh, st, cur, openNodes) && cur < |st.s| && c in sh.heads && d in sh.heads && c != d
    requires 0 <= c < cur && 0 <= st.s[c].up < cur
    ensures d in st.ring && ColumnOk(WithNode(sh, cur, c, name), NodeAdded(st.s, cur, c, name), d, st.ring[d])
  {
    hide RowsOk, HeadOk, ColumnsOk, NodeAdded, Whole;
    RingBelow(sh, st, cur, openNodes, d);
    RingBelow(sh, st, cur, openNodes, c);
    ColumnTop(sh, st, cur, openNodes, c);
    NodeAddedEffect(st.s, cur, c, name);
    assert c !in st.ring[d] && st.s[c].up !in st.ring[d] by { RingsApart(sh, st, c, d); }
    hide Building, ColumnOk;
    ColumnStays(sh, WithNode(sh, cur, c, name), st.s, NodeAdded(st.s, cur, c, name), d, st.ring[d]);
  }

  lemma RingsApart(sh: Shape, st: State, c: int, d: int)
    requires c in st.ring && d in st.ring && ColumnOk(sh, st.s, c, st.ring[c]) && ColumnOk(sh, st.s, d, st.ring[d]) && c != d
    requires c in sh.heads && d in sh.heads && sh.heads !! sh.col.Keys
    ensures forall x :: x in st.ring[c] ==> x !in st.ring[d]
  {
    hide Downward;
  }

  lemma AppendToWhole(sh: Shape, st: State, t: Pool, cur: int, c: int, name: int)
    requires Whole(sh, st) && c in st.ring && cur !in sh.col
    ensures Whole(WithNode(sh, cur, c, name), State(t, st.head, st.ring[c := st.ring[c] + [cur]]))
  {
    var sh', st' := WithNode(sh, cur, c, name), State(t, st.head, st.ring[c := st.ring[c] + [cur]]);
    assert Open(st') == Open(st);
    forall n | n in sh'.col
      ensures Linked(sh', st', n)
    {
      if n != cur {
        assert Linked(sh, st, n);
      }
    }
  }

  // ---------------------------------------------------------------- closing a row of four nodes

  ghost function WithRow(sh: Shape, n: int): Shape {
    sh.(row := sh.row[n := [n, n + 1, n + 2, n + 3]][n + 1 := [n + 1, n + 2, n + 3, n]]
                     [n + 2 := [n + 2, n + 3, n, n + 1]][n + 3 := [n + 3, n, n + 1, n + 2]])
  }

  // Four lone nodes, each inserted to the left of the first.
  ghost function Joined(s: Pool, n: int): (t: Pool)
    requires 0 <= n && n + 3 < |s| && s[n].left == n
    ensures |t| == |s|
  {
    PutLeft(PutLeft(PutLeft(s, n, n + 1), n, n + 2), n, n + 3)
  }

  lemma JoinedEffect(s: Pool, n: int)
    requires 0 <= n && n + 3 < |s| && s[n].left == n && s[n].right == n
    ensures forall m :: 0 <= m < |s| ==>
              var t := Joined(s, n)[m];
              && t.up == s[m].up && t.down == s[m].down && t.col == s[m].col && t.name == s[m].name && t.size == s[m].size
              && (m < n || n + 3 < m ==> t.left == s[m].left && t.right == s[m].right)
    ensures var t := Joined(s, n);
            && t[n].right == n + 1 && t[n + 1].right == n + 2 && t[n + 2].right == n + 3 && t[n + 3].right == n
            && t[n].left == n + 3 && t[n + 1].left == n && t[n + 2].left == n + 1 && t[n + 3].left == n + 2
  {
    var s1 := PutLeft(s, n, n + 1);
    var s2 := PutLeft(s1, n, n + 2);
    assert s1[n].left == n + 1 && s1[n].right == n + 1 && s1[n + 1].left == n && s1[n + 1].right == n;
    assert s2[n].left == n + 2 && s2[n + 1].right == n + 2 && s2[n + 2].left == n + 1 && s2[n + 2].right == n;
  }

  lemma FourAcross(s: Pool, n: int)
    requires 0 <= n && n + 3 < |s|
    requires s[n].right == n + 1 && s[n + 1].right == n + 2 && s[n + 2].right == n + 3 && s[n + 3].right == n
    requires s[n].left == n + 3 && s[n + 1].left == n && s[n + 2].left == n + 1 && s[n + 3].left == n + 2
    ensures Across(s, [n, n + 1, n + 2, n + 3]) && Across(s, [n + 1, n + 2, n + 3, n])
    ensures Across(s, [n + 2, n + 3, n, n + 1]) && Across(s, [n + 3, n, n + 1, n + 2])
  {
  }

  lemma JoinRow(sh: Shape, st: State, n: int)
    requires Building(sh, st, n + 4, {n, n + 1, n + 2, n + 3}) && st.s[n].left == n && st.s[n].right == n && n > 0
    requires n in sh.col && n + 1 in sh.col && n + 2 in sh.col && n + 3 in sh.col
    requires Distinct([sh.col[n], sh.col[n + 1], sh.col[n + 2], sh.col[n + 3]])
    ensures Building(WithRow(sh, n), State(Joined(st.s, n), st.head, st.ring), n + 4, {})
  {
    hide RowsOk, HeadOk, ColumnsOk, Whole, Joined;
    var sh', t := WithRow(sh, n), Joined(st.s, n);
    JoinedEffect(st.s, n);
    assert Used(sh', n + 4, {}) by { UsedJoined(sh, n); }
    assert RowsOk(sh', t) by { RowsJoined(sh, st.s, n); }
    assert HeadOk(sh', t, st.head) by {
      HeadBelow(sh, st, n + 4, {n, n + 1, n + 2, n + 3});
      HeadJoined(sh, st, n);
    }
    ColumnsJoined(sh, st, n);
    assert Whole(sh', State(t, st.head, st.ring)) by { WholeJoined(sh, sh', st, t); }
  }

  lemma WholeJoined(sh: Shape, sh': Shape, st: State, t: Pool)
    requires Whole(sh, st) && sh'.heads == sh.heads && sh'.col == sh.col
    ensures Whole(sh', State(t, st.head, st.ring))
  {
    var st' := State(t, st.head, st.ring);
    assert Open(st') == Open(st);
    forall n | n in sh'.col
      ensures Linked(sh', st', n)
    {
      assert Linked(sh, st, n);
    }
  }

  lemma RowOfFour(sh: Shape, n: int)
    requires sh == WithRow(sh, n) && n in sh.col && n + 1 in sh.col && n + 2 in sh.col && n + 3 in sh.col
    requires Distinct([sh.col[n], sh.col[n + 1], sh.col[n + 2], sh.col[n + 3]])
    ensures RowOk(sh, n) && RowOk(sh, n + 1) && RowOk(sh, n + 2) && RowOk(sh, n + 3)
  {
    var d := [sh.col[n], sh.col[n + 1], sh.col[n + 2], sh.col[n + 3]];
    assert d[0] != d[1] && d[0] != d[2] && d[0] != d[3] && d[1] != d[2] && d[1] != d[3] && d[2] != d[3];
    assert sh.row[n] == [n, n + 1, n + 2, n + 3];
    assert sh.row[n + 1] == [n + 1, n + 2, n + 3, n];
    assert sh.row[n + 2] == [n + 2, n + 3, n, n + 1];
    assert sh.row[n + 3] == [n + 3, n, n + 1, n + 2];
    hide WithRow, Distinct;
    FourOk(sh, n, n);
    FourOk(sh, n, n + 1);
    FourOk(sh, n, n + 2);
    FourOk(sh, n, n + 3);
  }

  // One rotation of a row of four.
  lemma FourOk(sh: Shape, n: int, m: int)
    requires n <= m <= n + 3 && m in sh.row && |sh.row[m]| == 4
    requires forall x :: n <= x <= n + 3 ==> x in sh.col && x in sh.row && forall y :: y in sh.row[x] <==> n <= y <= n + 3
    requires sh.row[m][0] == m && Distinct(sh.row[m])
    requires forall x, y :: n <= x < y <= n + 3 ==> sh.col[x] != sh.col[y]
    ensures RowOk(sh, m)
  {
    var q := sh.row[m];
    forall i, j | 0 <= i < j < 4
      ensures q[i] in sh.col && q[j] in sh.col && sh.col[q[i]] != sh.col[q[j]]
    {
      assert q[i] in q && q[j] in q && q[i] != q[j];
    }
    assert forall i :: 0 <= i < 4 ==> q[i] in q;
  }

  lemma UsedJoined(sh: Shape, n: int)
    requires Used(sh, n + 4, {n, n + 1, n + 2, n + 3}) && n > 0
    requires n in sh.col && n + 1 in sh.col && n + 2 in sh.col && n + 3 in sh.col
    requires Distinct([sh.col[n], sh.col[n + 1], sh.col[n + 2], sh.col[n + 3]])
    ensures Used(WithRow(sh, n), n + 4, {})
  {
    var sh' := WithRow(sh, n);
    RowOfFour(sh', n);
    forall m | m in sh.row
      ensures RowOk(sh', m)
    {
      assert RowOk(sh, m);
      assert sh'.row[m] == sh.row[m];
      OldRow(sh, sh', m);
    }
    hide RowOk, Distinct;
  }

  lemma OldRow(sh: Shape, sh': Shape, m: int)
    requires m in sh.row && m in sh'.row && sh'.row[m] == sh.row[m] && RowOk(sh, m) && sh'.col == sh.col
    requires forall x :: x in sh.row ==> x in sh'.row && sh'.row[x] == sh.row[x]
    ensures RowOk(sh', m)
  {
  }

  lemma RowsJoined(sh: Shape, s: Pool, n: int)
    requires Used(sh, n + 4, {n, n + 1, n + 2, n + 3}) && n > 0 && n + 3 < |s| && s[n].left == n && s[n].right == n
    requires RowsOk(sh, s)
    ensures RowsOk(WithRow(sh, n), Joined(s, n))
  {
    var sh', t := WithRow(sh, n), Joined(s, n);
    JoinedEffect(s, n);
    FourAcross(t, n);
    hide Joined, Across;
    forall m | m in sh.row
      ensures Across(t, sh.row[m])
    {
      OldRowStays(sh, s, t, n, m);
    }
    hide RowOk, Used;
    assert forall m :: m in sh'.row ==> m in sh.row || n <= m <= n + 3;
    assert sh'.row[n] == [n, n + 1, n + 2, n + 3] && sh'.row[n + 1] == [n + 1, n + 2, n + 3, n];
  }

  lemma OldRowStays(sh: Shape, s: Pool, t: Pool, n: int, m: int)
    requires Used(sh, n + 4, {n, n + 1, n + 2, n + 3}) && RowsOk(sh, s) && |t| == |s| && m in sh.row
    requires forall k :: 0 <= k < |s| && (k < n || n + 3 < k) ==> t[k].left == s[k].left && t[k].right == s[k].right
    ensures Across(t, sh.row[m])
  {
    assert RowOk(sh, m) && Across(s, sh.row[m]);
    hide Across;
    forall x | x in sh.row[m]
      ensures x < n
    {
      var i := IndexOf(sh.row[m], x);
      assert x in sh.row && x in sh.col;
      assert x !in {n, n + 1, n + 2, n + 3};
    }
    hide Used, RowsOk, RowOk;
    SameAcross(s, t, sh.row[m]);
  }

  lemma HeadJoined(sh: Shape, st: State, n: int)
    requires n > 0 && n + 3 < |st.s| && st.s[n].left == n && st.s[n].right == n && HeadOk(sh, st.s, st.head)
    requires (forall x :: x in st.head ==> x !in sh.col) && n in sh.col && n + 1 in sh.col && n + 2 in sh.col && n + 3 in sh.col
    ensures HeadOk(WithRow(sh, n), Joined(st.s, n), st.head)
  {
    JoinedEffect(st.s, n);
    var t := Joined(st.s, n);
    assert Across(st.s, st.head);
    hide Joined, Across, WithRow;
    forall x | x in st.head && 0 <= x < |st.s|
      ensures t[x].left == st.s[x].left && t[x].right == st.s[x].right
    {
      assert x != n && x != n + 1 && x != n + 2 && x != n + 3;
    }
    SameAcross(st.s, t, st.head);
  }

  lemma ColumnsJoined(sh: Shape, st: State, n: int)
    requires Building(sh, st, n + 4, {n, n + 1, n + 2, n + 3}) && st.s[n].left == n && st.s[n].right == n && n > 0
    ensures ColumnsOk(WithRow(sh, n), Joined(st.s, n), st.ring)
  {
    hide RowsOk, HeadOk, ColumnsOk, Joined, ColumnOk, Whole;
    JoinedEffect(st.s, n);
    var sh', t := WithRow(sh, n), Joined(st.s, n);
    forall c | c in sh'.heads
      ensures c in st.ring && ColumnOk(sh', t, c, st.ring[c])
    {
      RingBelow(sh, st, n + 4, {n, n + 1, n + 2, n + 3}, c);
      ColumnStays(sh, sh', st.s, t, c, st.ring[c]);
    }
    AllColumns(sh', t, st.ring);
  }
}
