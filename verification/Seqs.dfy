/** Sequences: joining many, regrouping, and all but the last element. */
module Seqs {

  function Concat<T>(chunks: seq<seq<T>>): seq<T> {
    if chunks == [] then [] else chunks[0] + Concat(chunks[1..])
  }

  lemma Assoc<T>(a: seq<T>, b: seq<T>, c: seq<T>)
    ensures a + (b + c) == (a + b) + c
  {
  }

  lemma {:induction false} ConcatAppend<T>(chunks: seq<seq<T>>, x: seq<T>)
    ensures Concat(chunks + [x]) == Concat(chunks) + x
  {
    if chunks == [] {
      assert chunks + [x] == [x] && [x][1..] == [];
    } else {
      ConcatAppend(chunks[1..], x);
      assert (chunks + [x])[0] == chunks[0] && (chunks + [x])[1..] == chunks[1..] + [x];
      Assoc(chunks[0], Concat(chunks[1..]), x);
    }
  }

  // Runs grow at their end: what came before the last element, and that element.
  function Before<T>(s: seq<T>): seq<T>
    requires s != []
  {
    s[..|s| - 1]
  }

  function Last<T>(s: seq<T>): T
    requires s != []
  {
    s[|s| - 1]
  }
}
