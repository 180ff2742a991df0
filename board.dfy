/** `LetterBoxedBoard` of letter_boxed.py: the letters split into equal, contiguous edges. */
module Boards {
  import opened Wrappers
  import opened Dictionaries

  datatype LetterBoxedBoard = LetterBoxedBoard(numSides: nat, numDots: nat, edgeLetters: seq<string>)

  /** The strings of `parts`, one after another. */
  function Concat(parts: seq<string>): string
    decreases |parts|
  {
    if parts == [] then [] else Concat(parts[..|parts| - 1]) + parts[|parts| - 1]
  }

  /** Dots per edge, `len(letters) // num_sides`. */
  function DotsPerEdge(letters: string, numSides: nat): nat
    requires numSides >= 1
  {
    |letters| / numSides
  }

  lemma EdgeInBounds(letters: string, numSides: nat, i: nat)
    requires numSides >= 1 && i < numSides
    ensures (i + 1) * DotsPerEdge(letters, numSides) <= numSides * DotsPerEdge(letters, numSides) <= |letters|
  {
    var per := DotsPerEdge(letters, numSides);
    assert (i + 1) * per <= numSides * per by {
      assert numSides * per - (i + 1) * per == (numSides - i - 1) * per;
    }
  }

  function Edge(letters: string, numSides: nat, i: nat): (r: string)
    requires numSides >= 1 && i < numSides
    ensures |r| == DotsPerEdge(letters, numSides)
  {
    var per := DotsPerEdge(letters, numSides);
    EdgeInBounds(letters, numSides, i);
    assert (i + 1) * per - i * per == per;
    Lower(letters[i * per..(i + 1) * per])
  }

  /**
   * `LetterBoxedBoard(letters, num_sides)`: `num_sides` edges of
   * `len(letters) // num_sides` lower-cased letters each, in input order.
   */
  function NewBoard(letters: string, numSides: nat): (b: LetterBoxedBoard)
    requires numSides >= 1
    ensures b.numSides == numSides && b.numDots == |letters|
    ensures |b.edgeLetters| == numSides
    ensures forall e | 0 <= e < numSides :: |b.edgeLetters[e]| == |letters| / numSides
  {
    LetterBoxedBoard(numSides, |letters|, seq(numSides, i requires 0 <= i < numSides => Edge(letters, numSides, i)))
  }

  /** The first `k` edges spell the lower-cased first `k * (len // num_sides)` letters. */
  lemma {:induction false} EdgesPrefix(letters: string, numSides: nat, k: nat)
    requires numSides >= 1 && k <= numSides
    ensures k * DotsPerEdge(letters, numSides) <= |letters|
    ensures Concat(NewBoard(letters, numSides).edgeLetters[..k]) ==
            Lower(letters[..k * DotsPerEdge(letters, numSides)])
    decreases k
  {
    var per := DotsPerEdge(letters, numSides);
    var edges := NewBoard(letters, numSides).edgeLetters;
    if k == 0 {
      assert k * per == 0;
    } else {
      EdgesPrefix(letters, numSides, k - 1);
      EdgeInBounds(letters, numSides, k - 1);
      MulPred(k, per);
      var lo: nat, hi: nat := (k - 1) * per, k * per;
      assert edges[..k][..k - 1] == edges[..k - 1];
      assert Concat(edges[..k]) == Concat(edges[..k - 1]) + edges[k - 1];
      assert edges[k - 1] == Lower(letters[lo..hi]);
      SplitPrefix(letters, lo, hi);
      LowerAppend(letters[..lo], letters[lo..hi]);
    }
  }

  lemma MulPred(k: nat, b: nat)
    requires k >= 1
    ensures k * b == (k - 1) * b + b && ((k - 1) + 1) * b == k * b && 0 <= (k - 1) * b <= k * b
  {
  }

  lemma SplitPrefix(s: string, lo: nat, hi: nat)
    requires lo <= hi <= |s|
    ensures s[..hi] == s[..lo] + s[lo..hi]
  {
  }

  lemma LowerAppend(a: string, b: string)
    ensures Lower(a + b) == Lower(a) + Lower(b)
  {
  }

  /** The edges together are the lower-cased letters, with any remainder beyond a multiple of `num_sides` dropped. */
  lemma BoardSpellsLetters(letters: string, numSides: nat)
    requires numSides >= 1
    ensures Concat(NewBoard(letters, numSides).edgeLetters) ==
            Lower(letters[..numSides * (|letters| / numSides)])
  {
    EdgesPrefix(letters, numSides, numSides);
    assert NewBoard(letters, numSides).edgeLetters[..numSides] == NewBoard(letters, numSides).edgeLetters;
  }

  /** `all_letters()`: every edge's letters, edge by edge. */
  function AllLetters(b: LetterBoxedBoard): (r: string)
    ensures forall c :: c in r <==> exists e | 0 <= e < |b.edgeLetters| :: c in b.edgeLetters[e]
  {
    ConcatMembership(b.edgeLetters);
    Concat(b.edgeLetters)
  }

  lemma {:induction false} ConcatMembership(parts: seq<string>)
    ensures forall c :: c in Concat(parts) <==> exists e | 0 <= e < |parts| :: c in parts[e]
    decreases |parts|
  {
    if parts != [] {
      var n := |parts| - 1;
      var init := parts[..n];
      ConcatMembership(init);
      assert Concat(parts) == Concat(init) + parts[n];
      forall c | c in Concat(parts) ensures exists e | 0 <= e < |parts| :: c in parts[e] {
        if c in Concat(init) {
          var e :| 0 <= e < |init| && c in init[e];
          assert c in parts[e];
        } else {
          assert c in parts[n];
        }
      }
      forall c, e | 0 <= e < |parts| && c in parts[e] ensures c in Concat(parts) {
        if e < n {
          assert c in init[e];
        }
      }
    }
  }

  function FirstEdgeFrom(edges: seq<string>, l: char, from: nat): (r: Option<nat>)
    requires from <= |edges|
    ensures r.Some? ==> from <= r.value < |edges| && l in edges[r.value] &&
                        forall e | from <= e < r.value :: l !in edges[e]
    ensures r.None? ==> forall e | from <= e < |edges| :: l !in edges[e]
    decreases |edges| - from
  {
    if from == |edges| then None
    else if l in edges[from] then Some(from)
    else FirstEdgeFrom(edges, l, from + 1)
  }

  /** `valid_edge_idx[0]`: the lowest-numbered edge holding `l`, if any. */
  function FirstEdge(b: LetterBoxedBoard, l: char): (r: Option<nat>)
    ensures r.Some? ==> r.value < |b.edgeLetters| && l in b.edgeLetters[r.value] &&
                        forall e | 0 <= e < r.value :: l !in b.edgeLetters[e]
    ensures r.None? ==> l !in AllLetters(b)
  {
    FirstEdgeFrom(b.edgeLetters, l, 0)
  }
}
