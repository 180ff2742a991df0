/**
 * The prefix trie of dictionary.py, as an arena of nodes.
 *
 * Node 0 is the root. Each node maps a key (a letter, or the reserved end
 * marker) to the index of its child node. The Python trie is a dict of dicts
 * whose leaves are `{}`; here a child is an index, and a fresh empty dict is a
 * freshly appended empty node.
 */
module Trie {
  import opened Wrappers

  /** The reserved key that marks "a word ends at this node" (`END_TOKEN`). */
  const EndToken: char := 'ø'

  type Arena = seq<map<char, nat>>

  /** A root exists, and every child lies after its parent inside the arena. */
  ghost predicate WellShaped(t: Arena) {
    |t| > 0 &&
    forall p, c | 0 <= p < |t| && c in t[p] :: p < t[p][c] < |t|
  }

  /** No node has two parents, so walks from the root form a tree. */
  ghost predicate UniqueParents(t: Arena) {
    forall p, q, c, d |
      0 <= p < |t| && 0 <= q < |t| && c in t[p] && d in t[q] && t[p][c] == t[q][d] ::
      p == q && c == d
  }

  ghost predicate Valid(t: Arena) {
    WellShaped(t) && UniqueParents(t)
  }

  /**
   * The end-marker discipline of the documented trie invariant: a child is an
   * empty node exactly when it is reached through the end marker.
   */
  ghost predicate MarkersWellFormed(t: Arena)
    requires WellShaped(t)
  {
    forall p, c | 0 <= p < |t| && c in t[p] :: (t[t[p][c]] == map[] <==> c == EndToken)
  }

  /** Every end-marker child at index `from` or later is an empty node. */
  ghost predicate EndLeavesFrom(t: Arena, from: nat)
    requires WellShaped(t)
  {
    forall p | from <= p < |t| && EndToken in t[p] :: t[t[p][EndToken]] == map[]
  }

  ghost predicate EndFree(s: string) {
    forall i | 0 <= i < |s| :: s[i] != EndToken
  }

  /** The node reached by following the characters of `s` from the root, if any. */
  ghost function Walk(t: Arena, s: string): (r: Option<nat>)
    requires WellShaped(t)
    ensures r.Some? ==> r.value < |t|
    decreases |s|
  {
    if s == [] then Some(0)
    else match Walk(t, s[..|s| - 1])
      case None => None
      case Some(n) => if s[|s| - 1] in t[n] then Some(t[n][s[|s| - 1]]) else None
  }

  /** `s` is a word of the trie: its walk ends at a node holding the end marker. */
  ghost predicate Spells(t: Arena, s: string)
    requires WellShaped(t)
  {
    Walk(t, s).Some? && EndToken in t[Walk(t, s).value]
  }

  /** Python's `trie[c] = {}`: key `c` of node `p` now leads to a fresh empty node. */
  function SetChild(t: Arena, p: nat, c: char): (r: Arena)
    requires WellShaped(t) && p < |t|
    ensures WellShaped(r) && |r| == |t| + 1 && r[|t|] == map[]
    ensures r[p] == t[p][c := |t|]
    ensures forall j | 0 <= j < |t| && j != p :: r[j] == t[j]
  {
    var n: nat := |t|;
    var node: map<char, nat> := t[p][c := n];
    t[p := node] + [map[]]
  }

  /**
   * The loop of `_insert_into_prefix_trie`, with `cur` the node the loop has
   * reached and `w` the characters still to insert.
   */
  ghost function InsertFrom(t: Arena, cur: nat, w: string): (r: Arena)
    requires WellShaped(t) && cur < |t|
    ensures WellShaped(r) && |t| < |r|
    decreases |w|
  {
    if w == [] then SetChild(t, cur, EndToken)
    else if w[0] in t[cur] then InsertFrom(t, t[cur][w[0]], w[1..])
    else InsertFrom(SetChild(t, cur, w[0]), |t|, w[1..])
  }

  /** `_insert_into_prefix_trie(trie, w)` on the arena `t`. */
  ghost function Inserted(t: Arena, w: string): (r: Arena)
    requires WellShaped(t)
    ensures WellShaped(r)
  {
    InsertFrom(t, 0, w)
  }

  // ---------------------------------------------------------------------------
  // Relations between an arena and a later version of it

  /** `b` keeps every edge of `a` with its target. */
  ghost predicate Extends(a: Arena, b: Arena) {
    |a| <= |b| &&
    forall q, d | 0 <= q < |a| && d in a[q] :: d in b[q] && b[q][d] == a[q][d]
  }

  /** `b` keeps every key of `a`; a target may change only from an empty node to an empty node. */
  ghost predicate Grows(a: Arena, b: Arena)
    requires WellShaped(a) && WellShaped(b)
  {
    |a| <= |b| &&
    forall q, d | 0 <= q < |a| && d in a[q] ::
      d in b[q] && (b[q][d] == a[q][d] || (a[a[q][d]] == map[] && b[b[q][d]] == map[]))
  }

  /** Every edge of `b` that leads into a node of `a` is an edge of `a`. */
  ghost predicate OldTargetsKept(a: Arena, b: Arena) {
    forall q, d | 0 <= q < |b| && d in b[q] && b[q][d] < |a| ::
      q < |a| && d in a[q] && a[q][d] == b[q][d]
  }

  // ---------------------------------------------------------------------------
  // Walks

  /** One more character extends the walk by one edge. */
  lemma WalkSnoc(t: Arena, s: string, c: char)
    requires WellShaped(t)
    ensures Walk(t, s + [c]) ==
      if Walk(t, s).Some? && c in t[Walk(t, s).value] then Some(t[Walk(t, s).value][c]) else None
  {
    assert (s + [c])[..|s|] == s;
  }

  /** A walk that succeeds passes through every prefix. */
  lemma {:induction false} WalkPrefix(t: Arena, p: string, s: string)
    requires WellShaped(t) && p <= s && Walk(t, s).Some?
    ensures Walk(t, p).Some?
    decreases |s|
  {
    if |p| < |s| {
      assert p <= s[..|s| - 1];
      WalkPrefix(t, p, s[..|s| - 1]);
    } else {
      assert p == s;
    }
  }

  /** Only the empty string walks to the root, since every child lies after its parent. */
  lemma WalkNonEmptyLeavesRoot(t: Arena, s: string)
    requires WellShaped(t) && s != [] && Walk(t, s).Some?
    ensures Walk(t, s).value > 0
  {
    var n := Walk(t, s[..|s| - 1]).value;
    assert Walk(t, s).value == t[n][s[|s| - 1]];
  }

  /** In a tree, different strings never walk to the same node. */
  lemma {:induction false} WalkInjective(t: Arena, s1: string, s2: string)
    requires Valid(t)
    requires Walk(t, s1).Some? && Walk(t, s1) == Walk(t, s2)
    ensures s1 == s2
    decreases |s1|
  {
    if s1 != [] && s2 != [] {
      var p1, p2 := s1[..|s1| - 1], s2[..|s2| - 1];
      var n1, n2 := Walk(t, p1).value, Walk(t, p2).value;
      assert t[n1][s1[|s1| - 1]] == t[n2][s2[|s2| - 1]];
      WalkInjective(t, p1, p2);
      assert s1 == p1 + [s1[|s1| - 1]];
      assert s2 == p2 + [s2[|s2| - 1]];
    } else if s1 != [] {
      WalkNonEmptyLeavesRoot(t, s1);
    } else if s2 != [] {
      WalkNonEmptyLeavesRoot(t, s2);
    }
  }

  /** An extension keeps every walk. */
  lemma {:induction false} WalkForward(a: Arena, b: Arena, s: string)
    requires WellShaped(a) && WellShaped(b) && Extends(a, b)
    requires Walk(a, s).Some?
    ensures Walk(b, s) == Walk(a, s)
    decreases |s|
  {
    if s != [] {
      WalkForward(a, b, s[..|s| - 1]);
    }
  }

  /** A walk of `b` that ends at a node of `a` is a walk of `a`, when `b` added no edge into `a`. */
  lemma {:induction false} WalkBack(a: Arena, b: Arena, s: string)
    requires WellShaped(a) && WellShaped(b) && OldTargetsKept(a, b)
    requires Walk(b, s).Some? && Walk(b, s).value < |a|
    ensures Walk(a, s) == Walk(b, s)
    decreases |s|
  {
    if s != [] {
      var q := Walk(b, s[..|s| - 1]).value;
      assert b[q][s[|s| - 1]] == Walk(b, s).value;
      WalkBack(a, b, s[..|s| - 1]);
    } else {
      assert |a| > 0;
    }
  }

  /** Growing keeps every walk; an end-marker leaf may be replaced by another empty node. */
  lemma {:induction false} GrowsWalk(a: Arena, b: Arena, s: string)
    requires WellShaped(a) && WellShaped(b) && Grows(a, b)
    requires Walk(a, s).Some?
    ensures Walk(b, s).Some?
    ensures Walk(b, s) == Walk(a, s) || (a[Walk(a, s).value] == map[] && b[Walk(b, s).value] == map[])
    decreases |s|
  {
    if s != [] {
      var pre := s[..|s| - 1];
      GrowsWalk(a, b, pre);
      var n := Walk(a, pre).value;
      assert s[|s| - 1] in a[n];
      assert Walk(b, pre).value == n;
    }
  }

  /** Growing keeps every word. */
  lemma GrowsSpells(a: Arena, b: Arena, s: string)
    requires WellShaped(a) && WellShaped(b) && Grows(a, b)
    requires Spells(a, s)
    ensures Spells(b, s)
  {
    GrowsWalk(a, b, s);
  }

  /** A walk to `cur` only uses nodes before `cur`, so it survives changes at `cur` and later. */
  lemma {:induction false} WalkAgreeBelow(t: Arena, r: Arena, p: string, cur: nat)
    requires WellShaped(t) && WellShaped(r) && |t| <= |r|
    requires Walk(t, p) == Some(cur)
    requires forall j | 0 <= j < cur :: r[j] == t[j]
    ensures Walk(r, p) == Some(cur)
    decreases |p|
  {
    if p != [] {
      var m := Walk(t, p[..|p| - 1]).value;
      assert t[m][p[|p| - 1]] == cur;
      WalkAgreeBelow(t, r, p[..|p| - 1], m);
      assert r[m] == t[m];
    }
  }

  // ---------------------------------------------------------------------------
  // One `trie[c] = {}` step

  lemma SetChildValid(t: Arena, p: nat, c: char)
    requires Valid(t) && p < |t|
    ensures Valid(SetChild(t, p, c))
  {
    var r := SetChild(t, p, c);
    forall q1, q2, d1, d2 |
      0 <= q1 < |r| && 0 <= q2 < |r| && d1 in r[q1] && d2 in r[q2] && r[q1][d1] == r[q2][d2]
      ensures q1 == q2 && d1 == d2
    {
      if r[q1][d1] == |t| {
        assert q1 == p && d1 == c && q2 == p && d2 == c;
      } else {
        assert q1 < |t| && d1 in t[q1] && t[q1][d1] == r[q1][d1];
        assert q2 < |t| && d2 in t[q2] && t[q2][d2] == r[q2][d2];
      }
    }
  }

  lemma SetChildExtends(t: Arena, p: nat, c: char)
    requires WellShaped(t) && p < |t| && c !in t[p]
    ensures Extends(t, SetChild(t, p, c))
  {
  }

  lemma SetChildOldTargets(t: Arena, p: nat, c: char)
    requires WellShaped(t) && p < |t|
    ensures OldTargetsKept(t, SetChild(t, p, c))
  {
  }

  lemma OldTargetsKeptTrans(a: Arena, b: Arena, c: Arena)
    requires |a| <= |b| && OldTargetsKept(a, b) && OldTargetsKept(b, c)
    ensures OldTargetsKept(a, c)
  {
  }

  /** Adding a letter edge changes no word: words end at end markers, not at letters. */
  lemma SetChildSpells(t: Arena, p: nat, c: char, s: string)
    requires WellShaped(t) && p < |t| && c !in t[p] && c != EndToken
    ensures Spells(SetChild(t, p, c), s) <==> Spells(t, s)
  {
    var r := SetChild(t, p, c);
    SetChildExtends(t, p, c);
    SetChildOldTargets(t, p, c);
    if Walk(t, s).Some? {
      WalkForward(t, r, s);
    }
    if Walk(r, s).Some? && Walk(r, s).value < |t| {
      WalkBack(t, r, s);
    }
  }

  // ---------------------------------------------------------------------------
  // Insertion

  /** Insertion keeps the arena a tree, only appends nodes, adds no edge into an old node, and leaves the nodes before the cursor alone. */
  lemma {:induction false} InsertFromShape(t: Arena, cur: nat, w: string)
    requires Valid(t) && cur < |t|
    ensures Valid(InsertFrom(t, cur, w)) && |t| < |InsertFrom(t, cur, w)|
    ensures OldTargetsKept(t, InsertFrom(t, cur, w))
    ensures forall j | 0 <= j < cur :: InsertFrom(t, cur, w)[j] == t[j]
    decreases |w|
  {
    if w == [] {
      SetChildValid(t, cur, EndToken);
      SetChildOldTargets(t, cur, EndToken);
    } else if w[0] in t[cur] {
      InsertFromShape(t, t[cur][w[0]], w[1..]);
    } else {
      var t' := SetChild(t, cur, w[0]);
      SetChildValid(t, cur, w[0]);
      SetChildOldTargets(t, cur, w[0]);
      InsertFromShape(t', |t|, w[1..]);
      OldTargetsKeptTrans(t, t', InsertFrom(t', |t|, w[1..]));
    }
  }

  /** Moving the head of `rest` onto `a` keeps the concatenation. */
  lemma AppendCons<T>(a: seq<T>, rest: seq<T>)
    requires rest != []
    ensures (a + [rest[0]]) + rest[1..] == a + rest
  {
    assert rest == [rest[0]] + rest[1..];
  }

  /** After inserting the rest `w` from the node reached by `p`, the trie spells `p + w`. */
  lemma {:induction false} InsertFromSpellsWord(t: Arena, cur: nat, p: string, w: string)
    requires WellShaped(t) && cur < |t| && Walk(t, p) == Some(cur)
    ensures Spells(InsertFrom(t, cur, w), p + w)
    decreases |w|
  {
    if w == [] {
      var r := SetChild(t, cur, EndToken);
      WalkAgreeBelow(t, r, p, cur);
      assert p + w == p;
    } else {
      var c := w[0];
      var t' := if c in t[cur] then t else SetChild(t, cur, c);
      var x := if c in t[cur] then t[cur][c] else |t|;
      assert InsertFrom(t, cur, w) == InsertFrom(t', x, w[1..]);
      if c !in t[cur] {
        SetChildExtends(t, cur, c);
        WalkForward(t, t', p);
      }
      WalkSnoc(t', p, c);
      InsertFromSpellsWord(t', x, p + [c], w[1..]);
      AppendCons(p, w);
    }
  }

  /** Insertion keeps every key; it may only replace an empty end-marker child by a new empty one. */
  lemma {:induction false} InsertFromGrows(t: Arena, cur: nat, w: string)
    requires Valid(t) && cur < |t| && EndLeavesFrom(t, cur)
    ensures Grows(t, InsertFrom(t, cur, w))
    decreases |w|
  {
    if w == [] {
    } else if w[0] in t[cur] {
      InsertFromGrows(t, t[cur][w[0]], w[1..]);
    } else {
      var t' := SetChild(t, cur, w[0]);
      SetChildValid(t, cur, w[0]);
      SetChildExtends(t, cur, w[0]);
      InsertFromGrows(t', |t|, w[1..]);
      var r := InsertFrom(t', |t|, w[1..]);
      forall q, d | 0 <= q < |t| && d in t[q]
        ensures d in r[q] && (r[q][d] == t[q][d] || (t[t[q][d]] == map[] && r[r[q][d]] == map[]))
      {
        assert t'[q][d] == t[q][d];
        assert t[t[q][d]].Keys <= t'[t[q][d]].Keys;
      }
    }
  }

  /** Inserting a marker-free word adds no word other than `p + w`. */
  lemma {:induction false} InsertFromSound(t: Arena, cur: nat, p: string, w: string, s: string)
    requires Valid(t) && cur < |t| && Walk(t, p) == Some(cur) && EndFree(w)
    requires Spells(InsertFrom(t, cur, w), s)
    ensures Spells(t, s) || s == p + w
    decreases |w|
  {
    if w == [] {
      EndMarkOnlyAt(t, cur, p, s);
      assert p + w == p;
    } else {
      var c := w[0];
      assert c != EndToken;
      assert EndFree(w[1..]) by { assert forall i | 0 <= i < |w| - 1 :: w[1..][i] == w[i + 1]; }
      AppendCons(p, w);
      if c in t[cur] {
        WalkSnoc(t, p, c);
        InsertFromSound(t, t[cur][c], p + [c], w[1..], s);
      } else {
        var t' := SetChild(t, cur, c);
        SetChildValid(t, cur, c);
        SetChildExtends(t, cur, c);
        WalkForward(t, t', p);
        WalkSnoc(t', p, c);
        InsertFromSound(t', |t|, p + [c], w[1..], s);
        SetChildSpells(t, cur, c, s);
      }
    }
  }

  /** Marking the node reached by `p` as a word end adds only the word `p`. */
  lemma EndMarkOnlyAt(t: Arena, cur: nat, p: string, s: string)
    requires Valid(t) && cur < |t| && Walk(t, p) == Some(cur)
    requires Spells(SetChild(t, cur, EndToken), s)
    ensures Spells(t, s) || s == p
  {
    var r := SetChild(t, cur, EndToken);
    SetChildOldTargets(t, cur, EndToken);
    var j := Walk(r, s).value;
    if j < |t| {
      WalkBack(t, r, s);
      if j == cur {
        WalkInjective(t, s, p);
      }
    }
  }

  /**
   * The end-marker discipline while an insertion is under way: it holds for
   * every edge except those into the cursor, and no end-marker edge leads to
   * the cursor.
   */
  ghost predicate MarkersExcept(t: Arena, cur: nat)
    requires WellShaped(t)
  {
    (forall p, c | 0 <= p < |t| && c in t[p] && t[p][c] != cur :: (t[t[p][c]] == map[] <==> c == EndToken)) &&
    (forall p | 0 <= p < |t| && EndToken in t[p] :: t[p][EndToken] != cur)
  }

  lemma MarkersAwayFromRoot(t: Arena)
    requires WellShaped(t) && MarkersWellFormed(t)
    ensures MarkersExcept(t, 0)
  {
  }

  lemma MarkersFinalStep(t: Arena, cur: nat)
    requires WellShaped(t) && cur < |t| && MarkersExcept(t, cur)
    ensures MarkersWellFormed(SetChild(t, cur, EndToken))
  {
    var r := SetChild(t, cur, EndToken);
    forall q, d | 0 <= q < |r| && d in r[q]
      ensures r[r[q][d]] == map[] <==> d == EndToken
    {
      if q == cur && d == EndToken {
      } else {
        assert q < |t| && d in t[q] && r[q][d] == t[q][d];
        if t[q][d] == cur {
          assert EndToken in r[cur];
        }
      }
    }
  }

  lemma MarkersDescend(t: Arena, cur: nat, c: char)
    requires Valid(t) && cur < |t| && MarkersExcept(t, cur)
    requires c in t[cur] && c != EndToken
    ensures MarkersExcept(t, t[cur][c])
  {
    var x := t[cur][c];
    assert forall q | 0 <= q < |t| && EndToken in t[q] :: t[q][EndToken] != x;
  }

  lemma MarkersNewChild(t: Arena, cur: nat, c: char)
    requires WellShaped(t) && cur < |t| && MarkersExcept(t, cur)
    requires c !in t[cur] && c != EndToken
    ensures MarkersExcept(SetChild(t, cur, c), |t|)
  {
    var r := SetChild(t, cur, c);
    forall q, d | 0 <= q < |r| && d in r[q] && r[q][d] != |t|
      ensures r[r[q][d]] == map[] <==> d == EndToken
    {
      assert q < |t| && d in t[q] && r[q][d] == t[q][d];
      if t[q][d] == cur {
        assert c in r[cur];
      }
    }
  }

  /** Inserting a marker-free word keeps the end-marker discipline. */
  lemma {:induction false} InsertFromMarkers(t: Arena, cur: nat, w: string)
    requires Valid(t) && cur < |t| && EndFree(w) && MarkersExcept(t, cur)
    ensures MarkersWellFormed(InsertFrom(t, cur, w))
    decreases |w|
  {
    if w == [] {
      MarkersFinalStep(t, cur);
    } else {
      var c := w[0];
      assert c != EndToken;
      assert EndFree(w[1..]) by { assert forall i | 0 <= i < |w| - 1 :: w[1..][i] == w[i + 1]; }
      if c in t[cur] {
        MarkersDescend(t, cur, c);
        InsertFromMarkers(t, t[cur][c], w[1..]);
      } else {
        SetChildValid(t, cur, c);
        MarkersNewChild(t, cur, c);
        InsertFromMarkers(SetChild(t, cur, c), |t|, w[1..]);
      }
    }
  }

  // ---------------------------------------------------------------------------
  // What one insertion does to the words of the trie

  /** After `Inserted(t, w)` the walk of `w` from the root ends at an end marker; for `w == ""` the root itself is marked. */
  lemma InsertSpellsWord(t: Arena, w: string)
    requires Valid(t)
    ensures Valid(Inserted(t, w)) && Spells(Inserted(t, w), w)
  {
    InsertFromShape(t, 0, w);
    InsertFromSpellsWord(t, 0, [], w);
    assert [] + w == w;
  }

  /** Insertion only adds: every path of the old trie is still a path, and every old word is still a word. */
  lemma InsertKeepsPaths(t: Arena, w: string, s: string)
    requires Valid(t) && EndLeavesFrom(t, 0)
    ensures Walk(t, s).Some? ==> Walk(Inserted(t, w), s).Some?
    ensures Spells(t, s) ==> Spells(Inserted(t, w), s)
  {
    InsertFromGrows(t, 0, w);
    if Walk(t, s).Some? {
      GrowsWalk(t, Inserted(t, w), s);
    }
    if Spells(t, s) {
      GrowsSpells(t, Inserted(t, w), s);
    }
  }

  /** Inserting a marker-free word into a well-formed trie adds exactly that word and keeps the marker discipline. */
  lemma InsertWordSet(t: Arena, w: string, s: string)
    requires Valid(t) && MarkersWellFormed(t) && EndFree(w)
    ensures Valid(Inserted(t, w)) && MarkersWellFormed(Inserted(t, w))
    ensures Spells(Inserted(t, w), s) <==> Spells(t, s) || s == w
  {
    InsertFromShape(t, 0, w);
    MarkersAwayFromRoot(t);
    InsertFromMarkers(t, 0, w);
    InsertSpellsWord(t, w);
    InsertKeepsPaths(t, w, s);
    if Spells(Inserted(t, w), s) {
      InsertFromSound(t, 0, [], w, s);
      assert [] + w == w;
    }
  }

  /** A word holding the marker character makes the trie spell a proper prefix of it. */
  lemma MarkerInWordSpellsPrefix()
    ensures Spells(Inserted([map[]], "a" + [EndToken]), "a")
  {
    var t0: Arena := [map[]];
    var t1 := SetChild(t0, 0, 'a');
    var t2 := SetChild(t1, 1, EndToken);
    var t3 := SetChild(t2, 2, EndToken);
    var w := "a" + [EndToken];
    assert w[0] == 'a' && w[1..] == [EndToken] && [EndToken][1..] == [];
    assert 'a' !in t0[0];
    assert InsertFrom(t0, 0, w) == InsertFrom(t1, 1, [EndToken]);
    assert t1[1] == map[];
    assert InsertFrom(t1, 1, [EndToken]) == InsertFrom(t2, 2, []);
    assert Inserted(t0, w) == t3;
    assert Walk(t3, "a") == Some(1) by {
      assert Walk(t3, "a"[..0]) == Some(0);
    }
  }

  // ---------------------------------------------------------------------------
  // The mutable trie and the build loop

  /** The dict of dicts that `_build_prefix_tree` fills in place, as one growing arena. */
  class PrefixTrie {
    var nodes: Arena

    /** `trie = {}`: only the root, with no keys. */
    constructor ()
      ensures nodes == [map[]]
    {
      nodes := [map[]];
    }

    /** `_insert_into_prefix_trie(trie, word)`: walk `word`, add each missing child, then mark the end. */
    method Insert(word: string)
      requires WellShaped(nodes)
      modifies this
      ensures WellShaped(nodes) && nodes == Inserted(old(nodes), word)
    {
      var cur: nat := 0;
      var i := 0;
      while i < |word|
        invariant 0 <= i <= |word|
        invariant WellShaped(nodes) && cur < |nodes|
        invariant InsertFrom(nodes, cur, word[i..]) == Inserted(old(nodes), word)
      {
        var c := word[i];
        assert word[i..][0] == c && word[i..][1..] == word[i + 1..];
        if c !in nodes[cur] {
          nodes := SetChild(nodes, cur, c);
        }
        cur := nodes[cur][c];
        i := i + 1;
      }
      assert word[i..] == [];
      nodes := SetChild(nodes, cur, EndToken);
    }
  }

  ghost predicate AllEndFree(words: set<string>) {
    forall w | w in words :: EndFree(w)
  }

  /**
   * `_build_prefix_tree(words)`: insert every word, in the set's (unspecified)
   * order. For marker-free words the result spells exactly `words` and keeps
   * the end-marker discipline.
   */
  method BuildPrefixTree(words: set<string>) returns (t: Arena)
    ensures Valid(t)
    ensures AllEndFree(words) ==> MarkersWellFormed(t) && forall s :: Spells(t, s) <==> s in words
    ensures AllEndFree(words) ==> EndLeavesFrom(t, 0)
  {
    var trie := new PrefixTrie();
    var rest := words;
    ghost var done: set<string> := {};
    while rest != {}
      invariant rest == words - done && done <= words
      invariant Valid(trie.nodes)
      invariant AllEndFree(words) ==> MarkersWellFormed(trie.nodes) && forall s :: Spells(trie.nodes, s) <==> s in done
      decreases rest
    {
      var w :| w in rest;
      ghost var before := trie.nodes;
      InsertSpellsWord(before, w);
      trie.Insert(w);
      if AllEndFree(words) {
        forall s ensures Spells(trie.nodes, s) <==> s in done + {w} {
          InsertWordSet(before, w, s);
        }
        InsertWordSet(before, w, w);
      }
      rest := rest - {w};
      done := done + {w};
    }
    t := trie.nodes;
  }
}
