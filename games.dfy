/**
 * `LetterBoxedGame` of letter_boxed.py: the two child generators, the greedy
 * whole-word placement, the two playability checks and the construction that
 * narrows the dictionary to the words the board can hold.
 */
module Games {
  import opened Wrappers
  import opened Trie
  import opened Dictionaries
  import opened Boards
  import opened States

  // ---------------------------------------------------------------------------
  // random.shuffle

  /** `random.shuffle`: some permutation, chosen by swaps with an arbitrary later position. */
  method Shuffle<T>(xs: seq<T>) returns (r: seq<T>)
    ensures multiset(r) == multiset(xs)
  {
    r := xs;
    var i := 0;
    while i < |r|
      invariant 0 <= i <= |r| && |r| == |xs|
      invariant multiset(r) == multiset(xs)
    {
      var j :| i <= j < |r|;
      var ri, rj := r[i], r[j];
      r := r[i := rj][j := ri];
      i := i + 1;
    }
  }

  // ---------------------------------------------------------------------------
  // get_child_letter_states

  /** `finish_last_word` reads `letters[-1]`: it needs a placed letter whenever it is called. */
  predicate FinishSafe(g: LetterBoxedGame, s: LetterBoxedState) {
    CanFinishWord(g, s) ==> |s.letters| > 0
  }

  /** The comprehension over one edge: each letter of `ls` that may be placed on edge `e`, in order. */
  function EdgePlacements(g: LetterBoxedGame, s: LetterBoxedState, e: nat, ls: string): (r: seq<LetterBoxedState>)
    ensures |r| <= |ls|
    decreases |ls|
  {
    if ls == [] then []
    else
      var l := Last(ls);
      EdgePlacements(g, s, e, ls[..|ls| - 1]) + (if CanPlaceLetter(g, s, l, e) then [PlaceLetter(g, s, l, e)] else [])
  }

  /** The placements the loop over the first `k` edges collects. */
  function PlacementsUpTo(g: LetterBoxedGame, s: LetterBoxedState, k: nat): (r: seq<LetterBoxedState>)
    requires k <= |g.board.edgeLetters|
  {
    if k == 0 then []
    else
      PlacementsUpTo(g, s, k - 1) +
      (if IsValidNextEdgeIndex(s, k - 1) then EdgePlacements(g, s, k - 1, g.board.edgeLetters[k - 1]) else [])
  }

  /** The children before shuffling: every legal placement, then the finished word if it can be finished. */
  function LetterChildren(g: LetterBoxedGame, s: LetterBoxedState): seq<LetterBoxedState>
    requires GameValid(g) && FinishSafe(g, s)
  {
    PlacementsUpTo(g, s, |g.board.edgeLetters|) +
    (if CanFinishWord(g, s) then [FinishLastWord(g, s)] else [])
  }

  /** A legal move: a letter of edge `e` that is a child of the trie position, `e` not the edge used last. */
  predicate PlacementMove(g: LetterBoxedGame, s: LetterBoxedState, e: nat, j: nat) {
    e < |g.board.edgeLetters| && j < |g.board.edgeLetters[e]| && CanPlaceLetter(g, s, g.board.edgeLetters[e][j], e)
  }

  /** Every placement collected from `ls` is a placeable letter of `ls`, given by its position. */
  lemma {:induction false} EdgePlacementsSound(g: LetterBoxedGame, s: LetterBoxedState, e: nat, ls: string, c: LetterBoxedState) returns (j: nat)
    requires c in EdgePlacements(g, s, e, ls)
    ensures j < |ls| && CanPlaceLetter(g, s, ls[j], e) && c == PlaceLetter(g, s, ls[j], e)
    decreases |ls|
  {
    var init := ls[..|ls| - 1];
    var l := Last(ls);
    assert c in EdgePlacements(g, s, e, init) || (CanPlaceLetter(g, s, l, e) && c == PlaceLetter(g, s, l, e));
    if c in EdgePlacements(g, s, e, init) {
      j := EdgePlacementsSound(g, s, e, init, c);
      assert ls[j] == init[j];
    } else {
      j := |ls| - 1;
    }
  }

  /** Every placeable letter of `ls` is collected. */
  lemma {:induction false} EdgePlacementsComplete(g: LetterBoxedGame, s: LetterBoxedState, e: nat, ls: string, j: nat)
    requires j < |ls| && CanPlaceLetter(g, s, ls[j], e)
    ensures PlaceLetter(g, s, ls[j], e) in EdgePlacements(g, s, e, ls)
    decreases |ls|
  {
    var c := PlaceLetter(g, s, ls[j], e);
    var init := ls[..|ls| - 1];
    var l := Last(ls);
    if j == |ls| - 1 {
      assert l == ls[j];
    } else {
      assert init[j] == ls[j];
      EdgePlacementsComplete(g, s, e, init, j);
      assert c in EdgePlacements(g, s, e, init);
    }
  }

  /** The loop over the first `k` edges collects exactly their legal moves. */
  lemma PlacementsUpToMembers(g: LetterBoxedGame, s: LetterBoxedState, k: nat, c: LetterBoxedState)
    requires k <= |g.board.edgeLetters|
    ensures c in PlacementsUpTo(g, s, k) <==>
      exists e, j | 0 <= e < k && 0 <= j < |g.board.edgeLetters[e]| ::
        PlacementMove(g, s, e, j) && c == PlaceLetter(g, s, g.board.edgeLetters[e][j], e)
  {
    var edges := g.board.edgeLetters;
    if c in PlacementsUpTo(g, s, k) {
      var e, j := PlacementsSound(g, s, k, c);
      assert 0 <= e < k && 0 <= j < |edges[e]|;
    }
    if exists e, j | 0 <= e < k && 0 <= j < |edges[e]| :: PlacementMove(g, s, e, j) && c == PlaceLetter(g, s, edges[e][j], e) {
      var e, j :| 0 <= e < k && 0 <= j < |edges[e]| && PlacementMove(g, s, e, j) && c == PlaceLetter(g, s, edges[e][j], e);
      PlacementsComplete(g, s, k, e, j);
    }
  }

  /** Every collected placement is a legal move on one of the first `k` edges, given by its edge and letter position. */
  lemma {:induction false} PlacementsSound(g: LetterBoxedGame, s: LetterBoxedState, k: nat, c: LetterBoxedState) returns (e: nat, j: nat)
    requires k <= |g.board.edgeLetters| && c in PlacementsUpTo(g, s, k)
    ensures e < k && j < |g.board.edgeLetters[e]| && PlacementMove(g, s, e, j)
    ensures c == PlaceLetter(g, s, g.board.edgeLetters[e][j], e)
    decreases k
  {
    var prev := PlacementsUpTo(g, s, k - 1);
    var ls := g.board.edgeLetters[k - 1];
    var tail := if IsValidNextEdgeIndex(s, k - 1) then EdgePlacements(g, s, k - 1, ls) else [];
    assert PlacementsUpTo(g, s, k) == prev + tail;
    assert c in prev || c in tail;
    if c in prev {
      e, j := PlacementsSound(g, s, k - 1, c);
    } else {
      e := k - 1;
      j := EdgePlacementsSound(g, s, e, ls, c);
    }
  }

  /** Every legal move on one of the first `k` edges is collected. */
  lemma {:induction false} PlacementsComplete(g: LetterBoxedGame, s: LetterBoxedState, k: nat, e: nat, j: nat)
    requires e < k <= |g.board.edgeLetters| && j < |g.board.edgeLetters[e]| && PlacementMove(g, s, e, j)
    ensures PlaceLetter(g, s, g.board.edgeLetters[e][j], e) in PlacementsUpTo(g, s, k)
    decreases k
  {
    var c := PlaceLetter(g, s, g.board.edgeLetters[e][j], e);
    var prev := PlacementsUpTo(g, s, k - 1);
    var ls := g.board.edgeLetters[k - 1];
    if e == k - 1 {
      EdgePlacementsComplete(g, s, e, ls, j);
      assert IsValidNextEdgeIndex(s, e) && c in EdgePlacements(g, s, e, ls);
    } else {
      PlacementsComplete(g, s, k - 1, e, j);
      assert c in prev;
    }
  }

  /**
   * The children of a state are exactly its legal placements and, when the
   * word in progress can be finished, the finished state.
   */
  lemma LetterChildrenMembers(g: LetterBoxedGame, s: LetterBoxedState, c: LetterBoxedState)
    requires GameValid(g) && FinishSafe(g, s)
    ensures c in LetterChildren(g, s) <==>
      (exists e, j | 0 <= e < |g.board.edgeLetters| && 0 <= j < |g.board.edgeLetters[e]| ::
        PlacementMove(g, s, e, j) && c == PlaceLetter(g, s, g.board.edgeLetters[e][j], e)) ||
      (CanFinishWord(g, s) && c == FinishLastWord(g, s))
  {
    PlacementsUpToMembers(g, s, |g.board.edgeLetters|, c);
  }

  /** Every child of a state that keeps the invariant keeps it too. */
  lemma LetterChildrenInv(g: LetterBoxedGame, s: LetterBoxedState)
    requires GameValid(g) && Inv(g, s) && FinishSafe(g, s)
    ensures forall c | c in LetterChildren(g, s) :: Inv(g, c) && FinishSafe(g, c)
  {
    forall c | c in LetterChildren(g, s) ensures Inv(g, c) && FinishSafe(g, c) {
      LetterChildrenMembers(g, s, c);
      if CanFinishWord(g, s) && c == FinishLastWord(g, s) {
        FinishLastWordInv(g, s);
      } else {
        var e, j :| 0 <= e < |g.board.edgeLetters| && 0 <= j < |g.board.edgeLetters[e]| &&
          PlacementMove(g, s, e, j) && c == PlaceLetter(g, s, g.board.edgeLetters[e][j], e);
        PlaceLetterInv(g, s, g.board.edgeLetters[e][j], e);
      }
    }
  }

  /** Each state of `path` is a child of the one before it. */
  ghost predicate LetterPath(g: LetterBoxedGame, path: seq<LetterBoxedState>)
    requires GameValid(g)
  {
    forall i | 0 <= i < |path| - 1 :: LetterStep(g, path[i], path[i + 1])
  }

  ghost predicate LetterStep(g: LetterBoxedGame, s: LetterBoxedState, c: LetterBoxedState)
    requires GameValid(g)
  {
    FinishSafe(g, s) && c in LetterChildren(g, s)
  }

  /** Every state reachable from the initial state through letter children keeps the invariant. */
  lemma {:induction false} LetterPathInv(g: LetterBoxedGame, path: seq<LetterBoxedState>)
    requires GameValid(g) && |path| > 0 && path[0] == InitialState() && LetterPath(g, path)
    ensures forall i | 0 <= i < |path| :: Inv(g, path[i]) && FinishSafe(g, path[i])
    decreases |path|
  {
    if |path| == 1 {
      InitialStateInv(g);
      InvFinishSafe(g, InitialState());
    } else {
      var init := path[..|path| - 1];
      assert LetterPath(g, init) by {
        forall i | 0 <= i < |init| - 1 ensures LetterStep(g, init[i], init[i + 1]) {
          assert init[i] == path[i] && init[i + 1] == path[i + 1];
        }
      }
      LetterPathInv(g, init);
      var n := |path| - 1;
      assert path[n - 1] == init[n - 1];
      LetterChildrenInv(g, path[n - 1]);
      assert LetterStep(g, path[n - 1], path[n]);
      forall i | 0 <= i < |path| ensures Inv(g, path[i]) && FinishSafe(g, path[i]) {
        if i < n {
          assert path[i] == init[i];
        }
      }
    }
  }

  /** `get_child_letter_states`: the legal children, in some order. */
  method GetChildLetterStates(g: LetterBoxedGame, s: LetterBoxedState) returns (r: seq<LetterBoxedState>)
    requires GameValid(g) && FinishSafe(g, s)
    ensures multiset(r) == multiset(LetterChildren(g, s))
  {
    var nextStates: seq<LetterBoxedState> := [];
    var edgeIndex := 0;
    while edgeIndex < |g.board.edgeLetters|
      invariant 0 <= edgeIndex <= |g.board.edgeLetters|
      invariant nextStates == PlacementsUpTo(g, s, edgeIndex)
    {
      if IsValidNextEdgeIndex(s, edgeIndex) {
        nextStates := nextStates + EdgePlacements(g, s, edgeIndex, g.board.edgeLetters[edgeIndex]);
      }
      assert nextStates == PlacementsUpTo(g, s, edgeIndex + 1);
      edgeIndex := edgeIndex + 1;
    }
    if CanFinishWord(g, s) {
      nextStates := nextStates + [FinishLastWord(g, s)];
    }
    assert nextStates == LetterChildren(g, s);
    r := Shuffle(nextStates);
  }

  // ---------------------------------------------------------------------------
  // try_playing_on_board

  /** Greedy placement of `rest` from `st`: each letter on the first edge holding it, then finish. */
  function TryPlayFrom(g: LetterBoxedGame, st: LetterBoxedState, rest: string): Option<LetterBoxedState>
    requires GameValid(g) && FinishSafe(g, st)
    decreases |rest|
  {
    if rest == [] then
      if CanFinishWord(g, st) then Some(FinishLastWord(g, st)) else None
    else
      match FirstEdge(g.board, rest[0])
      case None => None
      case Some(e) =>
        if CanPlaceLetter(g, st, rest[0], e) then TryPlayFrom(g, PlaceLetter(g, st, rest[0], e), rest[1..])
        else None
  }

  /** A missing start state is the initial state. */
  function StartState(start: Option<LetterBoxedState>): LetterBoxedState {
    if start.None? then InitialState() else start.value
  }

  /** After a completed word the connecting letter is already placed, so it is skipped. */
  function PlayedLetters(st: LetterBoxedState, word: string): string {
    if |st.words| > 0 then Drop1(word) else word
  }

  function TryPlay(g: LetterBoxedGame, word: string, start: Option<LetterBoxedState>): Option<LetterBoxedState>
    requires GameValid(g) && FinishSafe(g, StartState(start))
  {
    var st := StartState(start);
    TryPlayFrom(g, st, PlayedLetters(st, word))
  }

  /** `try_playing_on_board(s, start_state)`. */
  method TryPlayingOnBoard(g: LetterBoxedGame, word: string, start: Option<LetterBoxedState>) returns (r: Option<LetterBoxedState>)
    requires GameValid(g) && FinishSafe(g, StartState(start))
    ensures r == TryPlay(g, word, start)
  {
    var state := StartState(start);
    var s := PlayedLetters(state, word);
    var i := 0;
    while i < |s|
      invariant 0 <= i <= |s|
      invariant FinishSafe(g, state)
      invariant TryPlayFrom(g, state, s[i..]) == TryPlay(g, word, start)
    {
      var l := s[i];
      var validEdge := FirstEdge(g.board, l);
      assert s[i..][0] == l && s[i..][1..] == s[i + 1..];
      if validEdge.Some? && CanPlaceLetter(g, state, l, validEdge.value) {
        state := PlaceLetter(g, state, l, validEdge.value);
      } else {
        return None;
      }
      i := i + 1;
    }
    if CanFinishWord(g, state) {
      r := Some(FinishLastWord(g, state));
    } else {
      r := None;
    }
  }

  /** A state with the invariant can always take `finish_last_word`. */
  lemma InvFinishSafe(g: LetterBoxedGame, s: LetterBoxedState)
    requires GameValid(g) && Inv(g, s)
    ensures FinishSafe(g, s)
  {
    if CanFinishWord(g, s) {
      FinishLastWordInv(g, s);
    }
  }

  /**
   * A successful greedy placement appends the placed letters and their edges,
   * completes the word in progress extended by them, and leaves the connecting
   * letter as the new word in progress.
   */
  lemma {:induction false} TryPlayFromResult(g: LetterBoxedGame, st: LetterBoxedState, rest: string)
    requires GameValid(g) && FinishSafe(g, st)
    ensures TryPlayFrom(g, st, rest).Some? ==>
      var r := TryPlayFrom(g, st, rest).value;
      r.words == st.words + [st.wordInProgress + rest] &&
      r.letters == st.letters + rest &&
      |r.letters| > 0 && r.wordInProgress == [Last(r.letters)] &&
      |r.edgeIndexSequence| == |st.edgeIndexSequence| + |rest| &&
      r.edgeIndexSequence[..|st.edgeIndexSequence|] == st.edgeIndexSequence
    decreases |rest|
  {
    if TryPlayFrom(g, st, rest).Some? {
      if rest == [] {
        assert st.wordInProgress + rest == st.wordInProgress;
        assert st.letters + rest == st.letters;
      } else {
        var e := TryPlayStep(g, st, rest);
        var next := PlaceLetter(g, st, rest[0], e);
        TryPlayFromResult(g, next, rest[1..]);
        AppendCons(st.wordInProgress, rest);
        AppendCons(st.letters, rest);
        var r := TryPlayFrom(g, next, rest[1..]).value;
        TakeOfSnoc(r.edgeIndexSequence, st.edgeIndexSequence, e);
      }
    }
  }

  /** One step of the greedy loop: the first letter goes on its first edge. */
  lemma TryPlayStep(g: LetterBoxedGame, st: LetterBoxedState, rest: string) returns (e: nat)
    requires GameValid(g) && FinishSafe(g, st) && rest != [] && TryPlayFrom(g, st, rest).Some?
    ensures FirstEdge(g.board, rest[0]) == Some(e) && CanPlaceLetter(g, st, rest[0], e)
    ensures FinishSafe(g, PlaceLetter(g, st, rest[0], e))
    ensures TryPlayFrom(g, st, rest) == TryPlayFrom(g, PlaceLetter(g, st, rest[0], e), rest[1..])
  {
    e := FirstEdge(g.board, rest[0]).value;
  }

  lemma TakeOfSnoc<T>(r: seq<T>, a: seq<T>, x: T)
    requires |r| >= |a| + 1 && r[..|a| + 1] == a + [x]
    ensures r[..|a|] == a
  {
    assert r[..|a|] == r[..|a| + 1][..|a|];
  }

  /** A successful greedy placement from a state with the invariant yields a state with it. */
  lemma {:induction false} TryPlayFromInv(g: LetterBoxedGame, st: LetterBoxedState, rest: string)
    requires GameValid(g) && Inv(g, st) && FinishSafe(g, st)
    ensures TryPlayFrom(g, st, rest).Some? ==>
      Inv(g, TryPlayFrom(g, st, rest).value) && FinishSafe(g, TryPlayFrom(g, st, rest).value)
    decreases |rest|
  {
    if TryPlayFrom(g, st, rest).Some? {
      if rest == [] {
        FinishLastWordInv(g, st);
        InvFinishSafe(g, FinishLastWord(g, st));
      } else {
        var l := rest[0];
        var e := FirstEdge(g.board, l).value;
        PlaceLetterInv(g, st, l, e);
        TryPlayFromInv(g, PlaceLetter(g, st, l, e), rest[1..]);
      }
    }
  }

  /** Every letter lies on an edge, and consecutive letters have different first edges. */
  predicate FirstEdgesAlternate(b: LetterBoxedBoard, w: string) {
    (forall i | 0 <= i < |w| :: FirstEdge(b, w[i]).Some?) &&
    (forall i | 0 < i < |w| :: FirstEdge(b, w[i - 1]) != FirstEdge(b, w[i]))
  }

  /** The first new letter does not go on the edge used last. */
  predicate ContinuesFrom(b: LetterBoxedBoard, edges: seq<nat>, w: string) {
    |edges| > 0 && |w| > 0 ==> FirstEdge(b, w[0]) != Some(Last(edges))
  }

  lemma FirstEdgesCons(b: LetterBoxedBoard, edges: seq<nat>, w: string)
    requires |w| > 0 && FirstEdge(b, w[0]).Some?
    ensures FirstEdgesAlternate(b, w) && ContinuesFrom(b, edges, w) <==>
      ContinuesFrom(b, edges, w) &&
      FirstEdgesAlternate(b, w[1..]) && ContinuesFrom(b, edges + [FirstEdge(b, w[0]).value], w[1..])
  {
    var t := w[1..];
    if FirstEdgesAlternate(b, t) && ContinuesFrom(b, edges + [FirstEdge(b, w[0]).value], t) {
      forall i | 0 < i < |w| ensures FirstEdge(b, w[i - 1]) != FirstEdge(b, w[i]) {
        if i > 1 {
          assert w[i - 1] == t[i - 2] && w[i] == t[i - 1];
        }
      }
      forall i | 0 <= i < |w| ensures FirstEdge(b, w[i]).Some? {
        if i > 0 {
          assert w[i] == t[i - 1];
        }
      }
    }
    if FirstEdgesAlternate(b, w) {
      forall i | 0 < i < |t| ensures FirstEdge(b, t[i - 1]) != FirstEdge(b, t[i]) {
        assert t[i - 1] == w[i] && t[i] == w[i + 1];
      }
      forall i | 0 <= i < |t| ensures FirstEdge(b, t[i]).Some? {
        assert t[i] == w[i + 1];
      }
      if |t| > 0 {
        assert FirstEdge(b, w[0]) != FirstEdge(b, w[1]);
      }
    }
  }

  /**
   * `try_playing_on_board` fails exactly when a letter lies on no edge, when a
   * letter's first edge is the edge used just before it, when the letters leave
   * the trie, or when the result cannot be finished (too short or not a word).
   */
  lemma {:induction false} TryPlayFromSucceeds(g: LetterBoxedGame, st: LetterBoxedState, rest: string)
    requires GameValid(g) && FinishSafe(g, st) && st.subtrie == Walk(Tree(g), st.wordInProgress)
    ensures TryPlayFrom(g, st, rest).Some? <==>
      FirstEdgesAlternate(g.board, rest) && ContinuesFrom(g.board, st.edgeIndexSequence, rest) &&
      |st.wordInProgress + rest| >= g.minWordLength && Spells(Tree(g), st.wordInProgress + rest)
    decreases |rest|
  {
    if rest == [] {
      assert st.wordInProgress + rest == st.wordInProgress;
    } else {
      match FirstEdge(g.board, rest[0])
      case None =>
        assert !FirstEdgesAlternate(g.board, rest) by {
          assert FirstEdge(g.board, rest[0]).None?;
        }
      case Some(e) =>
        if !CanPlaceLetter(g, st, rest[0], e) {
          TryPlayBlocked(g, st, rest, e);
        } else {
          var next := PlaceLetter(g, st, rest[0], e);
          TryPlayAdvance(g, st, rest, e);
          TryPlayFromSucceeds(g, next, rest[1..]);
          FirstEdgesCons(g.board, st.edgeIndexSequence, rest);
        }
    }
  }

  /** A first letter that cannot be placed on its first edge fails, and so does the right-hand side. */
  lemma TryPlayBlocked(g: LetterBoxedGame, st: LetterBoxedState, rest: string, e: nat)
    requires GameValid(g) && FinishSafe(g, st) && st.subtrie == Walk(Tree(g), st.wordInProgress)
    requires rest != [] && FirstEdge(g.board, rest[0]) == Some(e) && !CanPlaceLetter(g, st, rest[0], e)
    ensures TryPlayFrom(g, st, rest).None?
    ensures !(ContinuesFrom(g.board, st.edgeIndexSequence, rest) && Spells(Tree(g), st.wordInProgress + rest))
  {
    var t := Tree(g);
    var l := rest[0];
    var whole := st.wordInProgress + rest;
    if !HasKey(g, st, l) {
      WalkSnoc(t, st.wordInProgress, l);
      assert st.wordInProgress + [l] <= whole;
      if Walk(t, whole).Some? {
        WalkPrefix(t, st.wordInProgress + [l], whole);
      }
    }
  }

  /** Placing the first letter on its first edge: one step of the greedy loop. */
  lemma TryPlayAdvance(g: LetterBoxedGame, st: LetterBoxedState, rest: string, e: nat)
    requires GameValid(g) && FinishSafe(g, st) && st.subtrie == Walk(Tree(g), st.wordInProgress)
    requires rest != [] && FirstEdge(g.board, rest[0]) == Some(e) && CanPlaceLetter(g, st, rest[0], e)
    ensures FinishSafe(g, PlaceLetter(g, st, rest[0], e))
    ensures PlaceLetter(g, st, rest[0], e).subtrie == Walk(Tree(g), PlaceLetter(g, st, rest[0], e).wordInProgress)
    ensures PlaceLetter(g, st, rest[0], e).wordInProgress + rest[1..] == st.wordInProgress + rest
    ensures PlaceLetter(g, st, rest[0], e).edgeIndexSequence == st.edgeIndexSequence + [e]
    ensures TryPlayFrom(g, st, rest) == TryPlayFrom(g, PlaceLetter(g, st, rest[0], e), rest[1..])
    ensures ContinuesFrom(g.board, st.edgeIndexSequence, rest)
  {
    WalkSnoc(Tree(g), st.wordInProgress, rest[0]);
  }

  /**
   * From the initial state, `try_playing_on_board(s)` succeeds exactly when `s`
   * is long enough, is a word of the trie, and its letters lie on alternating
   * first edges; the result has `s` as its only word.
   */
  lemma TryPlayInitial(g: LetterBoxedGame, w: string)
    requires GameValid(g)
    ensures TryPlay(g, w, None).Some? <==>
      |w| >= g.minWordLength && Spells(Tree(g), w) && FirstEdgesAlternate(g.board, w)
    ensures TryPlay(g, w, None).Some? ==>
      TryPlay(g, w, None).value.words == [w] && Inv(g, TryPlay(g, w, None).value)
  {
    InitialTryPlay(g, w);
    InitialSucceeds(g, w);
    InitialResult(g, w);
  }

  /** With no start state, the whole word is played from the initial state. */
  lemma InitialTryPlay(g: LetterBoxedGame, w: string)
    requires GameValid(g)
    ensures Inv(g, InitialState()) && FinishSafe(g, InitialState())
    ensures TryPlay(g, w, None) == TryPlayFrom(g, InitialState(), w)
  {
    InitialStateInv(g);
    InvFinishSafe(g, InitialState());
  }

  lemma InitialSucceeds(g: LetterBoxedGame, w: string)
    requires GameValid(g) && FinishSafe(g, InitialState())
    ensures TryPlayFrom(g, InitialState(), w).Some? <==>
      |w| >= g.minWordLength && Spells(Tree(g), w) && FirstEdgesAlternate(g.board, w)
  {
    var st := InitialState();
    assert st.wordInProgress + w == w;
    assert ContinuesFrom(g.board, st.edgeIndexSequence, w);
    TryPlayFromSucceeds(g, st, w);
  }

  lemma InitialResult(g: LetterBoxedGame, w: string)
    requires GameValid(g) && Inv(g, InitialState()) && FinishSafe(g, InitialState())
    ensures TryPlayFrom(g, InitialState(), w).Some? ==>
      TryPlayFrom(g, InitialState(), w).value.words == [w] && Inv(g, TryPlayFrom(g, InitialState(), w).value)
  {
    var st := InitialState();
    TryPlayFromResult(g, st, w);
    TryPlayFromInv(g, st, w);
    assert st.words == [] && st.wordInProgress + w == w;
    assert st.words + [st.wordInProgress + w] == [w];
  }

  /**
   * From a state whose last word is finished, playing a word that starts with
   * the connecting letter appends that whole word.
   */
  lemma TryPlayAfterWord(g: LetterBoxedGame, st: LetterBoxedState, w: string)
    requires GameValid(g) && Inv(g, st) && |st.words| > 0 && |w| > 0 && st.wordInProgress == [w[0]]
    ensures FinishSafe(g, st)
    ensures TryPlay(g, w, Some(st)).Some? ==>
      TryPlay(g, w, Some(st)).value.words == st.words + [w] && Inv(g, TryPlay(g, w, Some(st)).value)
  {
    InvFinishSafe(g, st);
    TryPlayFromResult(g, st, w[1..]);
    TryPlayFromInv(g, st, w[1..]);
    assert [w[0]] + w[1..] == w;
  }

  // ---------------------------------------------------------------------------
  // get_child_word_states

  /** `state.word_in_progress in ("", word[0])`. */
  predicate Applies(s: LetterBoxedState, w: string)
    requires |w| > 0
  {
    s.wordInProgress == [] || s.wordInProgress == [w[0]]
  }

  /** The states reachable by playing one word of `ws` whole from `s`. */
  ghost function WordChildrenOf(g: LetterBoxedGame, s: LetterBoxedState, ws: set<string>): set<LetterBoxedState>
    requires GameValid(g) && FinishSafe(g, s) && forall w | w in ws :: |w| > 0
  {
    set w | w in ws && Applies(s, w) && TryPlay(g, w, Some(s)).Some? :: TryPlay(g, w, Some(s)).value
  }

  ghost function WordChildren(g: LetterBoxedGame, s: LetterBoxedState): set<LetterBoxedState>
    requires GameValid(g) && FinishSafe(g, s) && forall w | w in g.dictionary.wordSet :: |w| > 0
  {
    WordChildrenOf(g, s, g.dictionary.wordSet)
  }

  /** Different applicable words lead to different states: the last completed word differs. */
  lemma WordChildInjective(g: LetterBoxedGame, s: LetterBoxedState, w1: string, w2: string)
    requires GameValid(g) && Inv(g, s) && FinishSafe(g, s)
    requires |w1| > 0 && |w2| > 0 && Applies(s, w1) && Applies(s, w2)
    requires TryPlay(g, w1, Some(s)).Some? && TryPlay(g, w1, Some(s)) == TryPlay(g, w2, Some(s))
    ensures w1 == w2
  {
    TryPlayFromResult(g, s, PlayedLetters(s, w1));
    TryPlayFromResult(g, s, PlayedLetters(s, w2));
    var r := TryPlay(g, w1, Some(s)).value;
    assert r.words[|s.words|] == s.wordInProgress + PlayedLetters(s, w1) == s.wordInProgress + PlayedLetters(s, w2);
    if |s.words| > 0 {
      assert [w1[0]] + w1[1..] == w1 && [w2[0]] + w2[1..] == w2;
    } else {
      assert s.wordInProgress + w1 == s.wordInProgress + w2;
      assert w1 == (s.wordInProgress + w1)[|s.wordInProgress|..];
      assert w2 == (s.wordInProgress + w2)[|s.wordInProgress|..];
    }
  }

  /** One more word adds at most its own child. */
  lemma WordChildrenOfAdd(g: LetterBoxedGame, s: LetterBoxedState, done: set<string>, word: string)
    requires GameValid(g) && FinishSafe(g, s) && (forall w | w in done :: |w| > 0) && |word| > 0
    ensures forall c :: c in WordChildrenOf(g, s, done + {word}) <==>
      c in WordChildrenOf(g, s, done) ||
      (Applies(s, word) && TryPlay(g, word, Some(s)).Some? && c == TryPlay(g, word, Some(s)).value)
  {
  }

  /** A word not seen before gives a child not produced before. */
  lemma FreshWordChild(g: LetterBoxedGame, s: LetterBoxedState, done: set<string>, word: string)
    requires GameValid(g) && Inv(g, s) && FinishSafe(g, s) && (forall w | w in done :: |w| > 0)
    requires |word| > 0 && word !in done && Applies(s, word) && TryPlay(g, word, Some(s)).Some?
    ensures TryPlay(g, word, Some(s)).value !in WordChildrenOf(g, s, done)
  {
    forall u | u in done && Applies(s, u) && TryPlay(g, u, Some(s)).Some?
      ensures TryPlay(g, u, Some(s)).value != TryPlay(g, word, Some(s)).value
    {
      if TryPlay(g, u, Some(s)).value == TryPlay(g, word, Some(s)).value {
        WordChildInjective(g, s, u, word);
      }
    }
  }

  /**
   * `get_child_word_states`: every dictionary word that applies and can be
   * played whole, in some order; from a state with the invariant each child
   * appears once.
   */
  method GetChildWordStates(g: LetterBoxedGame, s: LetterBoxedState) returns (r: seq<LetterBoxedState>)
    requires GameValid(g) && FinishSafe(g, s) && forall w | w in g.dictionary.wordSet :: |w| > 0
    ensures forall c :: c in r <==> c in WordChildren(g, s)
    ensures Inv(g, s) ==> forall c :: multiset(r)[c] <= 1
  {
    var nextStates: seq<LetterBoxedState> := [];
    var remaining := g.dictionary.wordSet;
    ghost var done: set<string> := {};
    while remaining != {}
      invariant remaining <= g.dictionary.wordSet && done == g.dictionary.wordSet - remaining
      invariant forall c :: c in nextStates <==> c in WordChildrenOf(g, s, done)
      invariant Inv(g, s) ==> forall c :: multiset(nextStates)[c] <= 1
      decreases |remaining|
    {
      var word :| word in remaining;
      WordChildrenOfAdd(g, s, done, word);
      if Applies(s, word) {
        var nextState := TryPlayingOnBoard(g, word, Some(s));
        if nextState.Some? {
          if Inv(g, s) {
            FreshWordChild(g, s, done, word);
          }
          nextStates := nextStates + [nextState.value];
        }
      }
      remaining := remaining - {word};
      done := done + {word};
    }
    assert done == g.dictionary.wordSet;
    r := Shuffle(nextStates);
    forall c ensures c in r <==> c in nextStates {
      assert c in r <==> c in multiset(r);
      assert c in nextStates <==> c in multiset(nextStates);
    }
  }

  /** A state the word strategy produces: the initial state, or one that just finished a word. */
  predicate WordBoundary(s: LetterBoxedState) {
    s == InitialState() || (|s.words| > 0 && |s.wordInProgress| == 1)
  }

  /**
   * From a word boundary with the invariant, each word child appends one
   * dictionary word to the completed words, keeps the invariant and is again
   * a word boundary.
   */
  lemma WordChildrenExtend(g: LetterBoxedGame, s: LetterBoxedState)
    requires GameValid(g) && Inv(g, s) && WordBoundary(s) && forall w | w in g.dictionary.wordSet :: |w| > 0
    ensures FinishSafe(g, s)
    ensures forall c | c in WordChildren(g, s) ::
      Inv(g, c) && FinishSafe(g, c) && WordBoundary(c) &&
      exists w | w in g.dictionary.wordSet :: c.words == s.words + [w]
  {
    InvFinishSafe(g, s);
    forall c | c in WordChildren(g, s)
      ensures Inv(g, c) && FinishSafe(g, c) && WordBoundary(c) &&
        exists w | w in g.dictionary.wordSet :: c.words == s.words + [w]
    {
      var w :| w in g.dictionary.wordSet && Applies(s, w) && TryPlay(g, w, Some(s)).Some? && c == TryPlay(g, w, Some(s)).value;
      WordChildExtends(g, s, w);
    }
  }

  /** Playing one applicable word from a word boundary appends it whole and reaches a word boundary. */
  lemma WordChildExtends(g: LetterBoxedGame, s: LetterBoxedState, w: string)
    requires GameValid(g) && Inv(g, s) && FinishSafe(g, s) && WordBoundary(s)
    requires |w| > 0 && Applies(s, w) && TryPlay(g, w, Some(s)).Some?
    ensures Inv(g, TryPlay(g, w, Some(s)).value) && FinishSafe(g, TryPlay(g, w, Some(s)).value)
    ensures WordBoundary(TryPlay(g, w, Some(s)).value)
    ensures TryPlay(g, w, Some(s)).value.words == s.words + [w]
  {
    TryPlayFromResult(g, s, PlayedLetters(s, w));
    TryPlayFromInv(g, s, PlayedLetters(s, w));
    if |s.words| > 0 {
      assert [w[0]] + w[1..] == w;
    } else {
      assert s.wordInProgress + w == w;
    }
  }

  // ---------------------------------------------------------------------------
  // The LetterBoxedGame constructor

  /**
   * `LetterBoxedGame(dictionary, board, min_word_length)`: the dictionary is
   * narrowed to the words `try_playing_on_board` accepts from the initial
   * state of the unnarrowed game.
   */
  method NewGame(dictionary: Dictionary, board: LetterBoxedBoard, minWordLength: int) returns (g: LetterBoxedGame)
    requires Consistent(dictionary) && minWordLength >= 1
    ensures g.board == board && g.minWordLength == minWordLength
    ensures GameValid(g) && Consistent(g.dictionary)
    ensures g.dictionary.wordSet ==
      set w | w in dictionary.wordSet && TryPlay(LetterBoxedGame(dictionary, board, minWordLength), w, None).Some?
    ensures forall w | w in g.dictionary.wordSet ::
      |w| >= minWordLength && Spells(dictionary.prefixTree, w) && FirstEdgesAlternate(board, w)
  {
    var unfiltered := LetterBoxedGame(dictionary, board, minWordLength);
    var narrowed := Filter(dictionary, w => TryPlay(unfiltered, w, None).Some?);
    g := LetterBoxedGame(narrowed, board, minWordLength);
    forall w | w in g.dictionary.wordSet
      ensures |w| >= minWordLength && Spells(dictionary.prefixTree, w) && FirstEdgesAlternate(board, w)
    {
      TryPlayInitial(unfiltered, w);
    }
  }

  // ---------------------------------------------------------------------------
  // can_be_played_in_game_dfs

  /** The states of `xs` whose word in progress is a prefix of `w`, in order (`s.startswith(...)`). */
  function KeepPrefixesOf(w: string, xs: seq<LetterBoxedState>): (r: seq<LetterBoxedState>)
    ensures |r| <= |xs|
    decreases |xs|
  {
    if xs == [] then []
    else
      KeepPrefixesOf(w, xs[..|xs| - 1]) + (if Last(xs).wordInProgress <= w then [Last(xs)] else [])
  }

  lemma {:induction false} KeepMembers(w: string, xs: seq<LetterBoxedState>)
    ensures forall c :: c in KeepPrefixesOf(w, xs) <==> c in xs && c.wordInProgress <= w
    decreases |xs|
  {
    if xs != [] {
      var init := xs[..|xs| - 1];
      KeepMembers(w, init);
      assert xs == init + [Last(xs)];
    }
  }

  lemma {:induction false} KeepConcat(w: string, xs: seq<LetterBoxedState>, ys: seq<LetterBoxedState>)
    ensures KeepPrefixesOf(w, xs + ys) == KeepPrefixesOf(w, xs) + KeepPrefixesOf(w, ys)
    decreases |ys|
  {
    if ys == [] {
      assert xs + ys == xs;
    } else {
      assert (xs + ys)[..|xs + ys| - 1] == xs + ys[..|ys| - 1];
      KeepConcat(w, xs, ys[..|ys| - 1]);
    }
  }

  /** The DFS pushes one edge's prefix-keeping placements at a time. */
  lemma KeepStep(g: LetterBoxedGame, w: string, st: LetterBoxedState, k: nat)
    requires k < |g.board.edgeLetters|
    ensures KeepPrefixesOf(w, PlacementsUpTo(g, st, k + 1)) ==
      KeepPrefixesOf(w, PlacementsUpTo(g, st, k)) +
      (if IsValidNextEdgeIndex(st, k) then KeepPrefixesOf(w, EdgePlacements(g, st, k, g.board.edgeLetters[k])) else [])
  {
    var more := if IsValidNextEdgeIndex(st, k) then EdgePlacements(g, st, k, g.board.edgeLetters[k]) else [];
    KeepConcat(w, PlacementsUpTo(g, st, k), more);
  }

  /** The states the DFS pushes after popping `st`: the legal placements that keep to a prefix of `w`. */
  function DfsChildren(g: LetterBoxedGame, w: string, st: LetterBoxedState): (r: seq<LetterBoxedState>)
    ensures forall c | c in r ::
              c.wordInProgress <= w && |c.wordInProgress| == |st.wordInProgress| + 1 &&
              |c.letters| > 0 && c.words == st.words
  {
    PlacementsShape(g, st);
    KeepMembers(w, PlacementsUpTo(g, st, |g.board.edgeLetters|));
    KeepPrefixesOf(w, PlacementsUpTo(g, st, |g.board.edgeLetters|))
  }

  /** Each placement extends the word in progress by one letter and keeps the words. */
  lemma PlacementsShape(g: LetterBoxedGame, s: LetterBoxedState)
    ensures forall c | c in PlacementsUpTo(g, s, |g.board.edgeLetters|) ::
      |c.wordInProgress| == |s.wordInProgress| + 1 && |c.letters| > 0 && c.words == s.words
  {
    forall c | c in PlacementsUpTo(g, s, |g.board.edgeLetters|)
      ensures |c.wordInProgress| == |s.wordInProgress| + 1 && |c.letters| > 0 && c.words == s.words
    {
      PlacementsUpToMembers(g, s, |g.board.edgeLetters|, c);
    }
  }

  /** Finishing `st` yields exactly the one-word solution `[w]`. */
  ghost predicate Finishes(g: LetterBoxedGame, w: string, st: LetterBoxedState)
    requires GameValid(g) && FinishSafe(g, st)
  {
    CanFinishWord(g, st) && FinishLastWord(g, st).words == [w]
  }

  /**
   * Some path of legal placements from `st`, each keeping the word in progress
   * a prefix of `w`, reaches a state that finishes as `[w]`. The finish test
   * sits inside the loop over edges, so a board without edges never finishes.
   */
  ghost predicate PlayableFrom(g: LetterBoxedGame, w: string, st: LetterBoxedState)
    requires GameValid(g) && FinishSafe(g, st)
    decreases |w| - |st.wordInProgress|
  {
    (|g.board.edgeLetters| > 0 && Finishes(g, w, st)) ||
    exists c | c in DfsChildren(g, w, st) :: PlayableFrom(g, w, c)
  }

  /** Only a word of at least the minimum length can be played. */
  lemma {:induction false} PlayableNeedsLength(g: LetterBoxedGame, w: string, st: LetterBoxedState)
    requires GameValid(g) && FinishSafe(g, st)
    ensures PlayableFrom(g, w, st) ==> |w| >= g.minWordLength
    decreases |w| - |st.wordInProgress|
  {
    if PlayableFrom(g, w, st) {
      if |g.board.edgeLetters| > 0 && Finishes(g, w, st) {
        assert FinishLastWord(g, st).words[|st.words|] == st.wordInProgress;
      } else {
        var c :| c in DfsChildren(g, w, st) && PlayableFrom(g, w, c);
        PlayableNeedsLength(g, w, c);
      }
    }
  }

  function Pow(b: nat, k: nat): (r: nat)
    ensures b >= 1 ==> r >= 1
  {
    if k == 0 then 1 else b * Pow(b, k - 1)
  }

  /** How many more letters a stacked state may still place. */
  function Depth(w: string, x: LetterBoxedState): nat {
    if |x.wordInProgress| <= |w| then |w| - |x.wordInProgress| else 0
  }

  /** The termination measure of the DFS: each stacked state weighs `base` to the power of its depth. */
  function Weight(base: nat, w: string, stack: seq<LetterBoxedState>): nat
    decreases |stack|
  {
    if stack == [] then 0 else Weight(base, w, stack[..|stack| - 1]) + Pow(base, Depth(w, Last(stack)))
  }

  lemma {:induction false} WeightConcat(base: nat, w: string, xs: seq<LetterBoxedState>, ys: seq<LetterBoxedState>)
    ensures Weight(base, w, xs + ys) == Weight(base, w, xs) + Weight(base, w, ys)
    decreases |ys|
  {
    if ys == [] {
      assert xs + ys == xs;
    } else {
      assert (xs + ys)[..|xs + ys| - 1] == xs + ys[..|ys| - 1];
      WeightConcat(base, w, xs, ys[..|ys| - 1]);
    }
  }

  lemma {:induction false} WeightUniform(base: nat, w: string, ys: seq<LetterBoxedState>, k: nat)
    requires forall c | c in ys :: Depth(w, c) == k
    ensures Weight(base, w, ys) == |ys| * Pow(base, k)
    decreases |ys|
  {
    if ys != [] {
      var init := ys[..|ys| - 1];
      assert forall c | c in init :: c in ys;
      WeightUniform(base, w, init, k);
      assert Depth(w, Last(ys)) == k by {
        assert Last(ys) in ys;
      }
      assert Weight(base, w, ys) == Weight(base, w, init) + Pow(base, k);
      MulPred(|ys|, Pow(base, k));
    }
  }

  /** Replacing a popped state by fewer than `base` states one level deeper lowers the weight. */
  lemma WeightDrops(base: nat, w: string, before: seq<LetterBoxedState>, st: LetterBoxedState, kids: seq<LetterBoxedState>)
    requires |kids| < base
    requires forall c | c in kids :: Depth(w, st) >= 1 && Depth(w, c) == Depth(w, st) - 1
    ensures Weight(base, w, before + kids) < Weight(base, w, before + [st])
  {
    var d := Depth(w, st);
    WeightConcat(base, w, before, kids);
    WeightConcat(base, w, before, [st]);
    assert Weight(base, w, [st]) == Pow(base, d) by {
      assert [st][..0] == [];
    }
    if kids != [] {
      assert d >= 1 by {
        assert kids[0] in kids;
      }
      WeightUniform(base, w, kids, d - 1);
      DropArith(Weight(base, w, before), Weight(base, w, kids), Pow(base, d), |kids|, base, Pow(base, d - 1));
    } else {
      assert before + kids == before;
    }
  }

  /** Fewer than `base` copies of `p` weigh less than `base * p`. */
  lemma DropArith(a: int, kids: int, single: int, n: nat, base: nat, p: nat)
    requires kids == n * p && single == base * p && n < base && p >= 1
    ensures a + kids < a + single
  {
    MulLess(n, base, p);
  }

  lemma MulLess(a: nat, b: nat, p: nat)
    requires a < b && p >= 1
    ensures a * p < b * p
  {
  }

  lemma {:induction false} PlacementsUpToCount(g: LetterBoxedGame, s: LetterBoxedState, k: nat)
    requires k <= |g.board.edgeLetters|
    ensures |PlacementsUpTo(g, s, k)| <= |Concat(g.board.edgeLetters[..k])|
  {
    if k > 0 {
      PlacementsUpToCount(g, s, k - 1);
      assert g.board.edgeLetters[..k][..k - 1] == g.board.edgeLetters[..k - 1];
    }
  }

  /** Every stacked state can be finished safely and keeps to the length of `w`. */
  ghost predicate StackOk(g: LetterBoxedGame, w: string, stack: seq<LetterBoxedState>) {
    forall x | x in stack :: FinishSafe(g, x) && |x.wordInProgress| <= |w|
  }

  /** Some stacked state is playable. */
  ghost predicate AnyPlayable(g: LetterBoxedGame, w: string, stack: seq<LetterBoxedState>)
    requires GameValid(g) && StackOk(g, w, stack)
  {
    exists x | x in stack :: PlayableFrom(g, w, x)
  }

  lemma AnyPlayableConcat(g: LetterBoxedGame, w: string, xs: seq<LetterBoxedState>, ys: seq<LetterBoxedState>)
    requires GameValid(g) && StackOk(g, w, xs) && StackOk(g, w, ys)
    ensures StackOk(g, w, xs + ys)
    ensures AnyPlayable(g, w, xs + ys) <==> AnyPlayable(g, w, xs) || AnyPlayable(g, w, ys)
  {
    if AnyPlayable(g, w, xs + ys) {
      var x :| x in xs + ys && PlayableFrom(g, w, x);
      assert x in xs || x in ys;
    }
  }

  /** A popped state that does not finish as `[w]` is playable exactly when one of its children is. */
  lemma PopStep(g: LetterBoxedGame, w: string, st: LetterBoxedState)
    requires GameValid(g) && FinishSafe(g, st) && |st.wordInProgress| <= |w|
    requires !(|g.board.edgeLetters| > 0 && Finishes(g, w, st))
    ensures StackOk(g, w, DfsChildren(g, w, st))
    ensures PlayableFrom(g, w, st) <==> AnyPlayable(g, w, DfsChildren(g, w, st))
    ensures forall c | c in DfsChildren(g, w, st) :: Depth(w, st) >= 1 && Depth(w, c) == Depth(w, st) - 1
  {
  }

  /**
   * The loop over edges for one popped state (`for edge_index, edge_letters in
   * ...`): it reports a finish as `[w]` at the first edge, and otherwise
   * collects the prefix-keeping placements edge by edge.
   */
  method ExpandState(g: LetterBoxedGame, w: string, state: LetterBoxedState) returns (found: bool, pushed: seq<LetterBoxedState>)
    requires GameValid(g) && FinishSafe(g, state)
    ensures found <==> |g.board.edgeLetters| > 0 && Finishes(g, w, state)
    ensures !found ==> pushed == DfsChildren(g, w, state)
  {
    var edges := g.board.edgeLetters;
    pushed := [];
    var edgeIndex := 0;
    while edgeIndex < |edges|
      invariant 0 <= edgeIndex <= |edges|
      invariant pushed == KeepPrefixesOf(w, PlacementsUpTo(g, state, edgeIndex))
      invariant edgeIndex > 0 ==> !Finishes(g, w, state)
    {
      var nextStates: seq<LetterBoxedState> := [];
      if IsValidNextEdgeIndex(state, edgeIndex) {
        nextStates := KeepPrefixesOf(w, EdgePlacements(g, state, edgeIndex, edges[edgeIndex]));
      }
      if CanFinishWord(g, state) {
        var finished := FinishLastWord(g, state);
        if finished.words == [w] {
          return true, pushed;
        }
      }
      KeepStep(g, w, state, edgeIndex);
      pushed := pushed + nextStates;
      edgeIndex := edgeIndex + 1;
    }
    found := false;
  }

  /** `can_be_played_in_game_dfs(s)`: a stack of states, each popped one expanded edge by edge. */
  method CanBePlayedInGameDfs(g: LetterBoxedGame, w: string) returns (r: bool)
    requires GameValid(g)
    ensures r == PlayableFrom(g, w, InitialState())
  {
    if |w| < g.minWordLength {
      PlayableNeedsLength(g, w, InitialState());
      return false;
    }
    ghost var base := |AllLetters(g.board)| + 1;
    ghost var goal := PlayableFrom(g, w, InitialState());
    var stack := [InitialState()];
    assert goal <==> AnyPlayable(g, w, stack);
    while stack != []
      invariant StackOk(g, w, stack)
      invariant goal <==> AnyPlayable(g, w, stack)
      decreases Weight(base, w, stack)
    {
      ghost var whole := stack;
      var state := Last(stack);
      stack := stack[..|stack| - 1];
      assert whole == stack + [state];
      AnyPlayableConcat(g, w, stack, [state]);
      var found, nextStates := ExpandState(g, w, state);
      if found {
        assert PlayableFrom(g, w, state);
        return true;
      }
      PopStep(g, w, state);
      AnyPlayableConcat(g, w, stack, nextStates);
      PlacementsUpToCount(g, state, |g.board.edgeLetters|);
      assert g.board.edgeLetters[..|g.board.edgeLetters|] == g.board.edgeLetters;
      WeightDrops(base, w, stack, state, nextStates);
      stack := stack + nextStates;
    }
    r := false;
  }

  /** A greedy placement of `rest` from `st` is one of the paths the DFS explores. */
  lemma {:induction false} TryPlayFromPlayable(g: LetterBoxedGame, w: string, st: LetterBoxedState, rest: string)
    requires GameValid(g) && FinishSafe(g, st) && st.words == [] && st.wordInProgress + rest == w
    requires rest != [] || |g.board.edgeLetters| > 0
    requires TryPlayFrom(g, st, rest).Some?
    ensures PlayableFrom(g, w, st)
    decreases |rest|
  {
    if rest == [] {
      assert st.wordInProgress == w;
      assert Finishes(g, w, st);
    } else {
      var e := TryPlayStep(g, st, rest);
      var l := rest[0];
      var edges := g.board.edgeLetters;
      var j :| 0 <= j < |edges[e]| && edges[e][j] == l;
      var c := PlaceLetter(g, st, l, e);
      AppendCons(st.wordInProgress, rest);
      assert c.wordInProgress <= w;
      DfsChildOf(g, w, st, e, j);
      TryPlayFromPlayable(g, w, c, rest[1..]);
    }
  }

  /** A legal move that keeps the word in progress a prefix of `w` is a DFS child. */
  lemma DfsChildOf(g: LetterBoxedGame, w: string, st: LetterBoxedState, e: nat, j: nat)
    requires PlacementMove(g, st, e, j) && PlaceLetter(g, st, g.board.edgeLetters[e][j], e).wordInProgress <= w
    ensures PlaceLetter(g, st, g.board.edgeLetters[e][j], e) in DfsChildren(g, w, st)
  {
    PlacementsComplete(g, st, |g.board.edgeLetters|, e, j);
    KeepMembers(w, PlacementsUpTo(g, st, |g.board.edgeLetters|));
  }

  /** Whatever the greedy placement accepts, the DFS accepts. */
  lemma TryPlayImpliesPlayable(g: LetterBoxedGame, w: string)
    requires GameValid(g)
    ensures TryPlay(g, w, None).Some? ==> PlayableFrom(g, w, InitialState())
  {
    if TryPlay(g, w, None).Some? {
      TryPlayInitial(g, w);
      assert InitialState().wordInProgress + w == w;
      TryPlayFromPlayable(g, w, InitialState(), w);
    }
  }

  /** No two edges hold `l`. */
  predicate OnOneEdge(b: LetterBoxedBoard, l: char) {
    forall e1, e2 | 0 <= e1 < e2 < |b.edgeLetters| :: !(l in b.edgeLetters[e1] && l in b.edgeLetters[e2])
  }

  /** A DFS child is a legal placement whose word in progress stays a prefix of `w`. */
  lemma DfsChildMove(g: LetterBoxedGame, w: string, st: LetterBoxedState, c: LetterBoxedState)
    requires c in DfsChildren(g, w, st)
    ensures c.wordInProgress <= w
    ensures exists e, j | 0 <= e < |g.board.edgeLetters| && 0 <= j < |g.board.edgeLetters[e]| ::
      PlacementMove(g, st, e, j) && c == PlaceLetter(g, st, g.board.edgeLetters[e][j], e)
  {
    KeepMembers(w, PlacementsUpTo(g, st, |g.board.edgeLetters|));
    PlacementsUpToMembers(g, st, |g.board.edgeLetters|, c);
  }

  lemma FirstEdgeOfOneEdge(b: LetterBoxedBoard, l: char, e: nat)
    requires e < |b.edgeLetters| && l in b.edgeLetters[e] && OnOneEdge(b, l)
    ensures FirstEdge(b, l) == Some(e)
  {
  }

  lemma {:induction false} PlayableFromGreedy(g: LetterBoxedGame, w: string, st: LetterBoxedState)
    requires GameValid(g) && FinishSafe(g, st) && st.wordInProgress <= w
    requires forall i | 0 <= i < |w| :: OnOneEdge(g.board, w[i])
    requires PlayableFrom(g, w, st)
    ensures TryPlayFrom(g, st, w[|st.wordInProgress|..]).Some?
    decreases |w| - |st.wordInProgress|
  {
    var rest := w[|st.wordInProgress|..];
    if |g.board.edgeLetters| > 0 && Finishes(g, w, st) {
      assert FinishLastWord(g, st).words[|st.words|] == st.wordInProgress;
      assert rest == [];
    } else {
      var c :| c in DfsChildren(g, w, st) && PlayableFrom(g, w, c);
      var edges := g.board.edgeLetters;
      DfsChildMove(g, w, st, c);
      var e, j :| 0 <= e < |edges| && 0 <= j < |edges[e]| &&
        PlacementMove(g, st, e, j) && c == PlaceLetter(g, st, edges[e][j], e);
      var n := |st.wordInProgress|;
      assert n < |w| && edges[e][j] == w[n] by {
        assert c.wordInProgress == st.wordInProgress + [edges[e][j]] && c.wordInProgress <= w;
        assert c.wordInProgress[n] == edges[e][j];
      }
      GreedyStep(g, w, st, e, j);
      PlayableFromGreedy(g, w, c);
    }
  }

  /** A DFS move on a letter that lies on one edge only is the greedy placement's move. */
  lemma GreedyStep(g: LetterBoxedGame, w: string, st: LetterBoxedState, e: nat, j: nat)
    requires GameValid(g) && FinishSafe(g, st) && st.wordInProgress <= w
    requires PlacementMove(g, st, e, j) && OnOneEdge(g.board, g.board.edgeLetters[e][j])
    requires PlaceLetter(g, st, g.board.edgeLetters[e][j], e).wordInProgress <= w
    ensures FinishSafe(g, PlaceLetter(g, st, g.board.edgeLetters[e][j], e))
    ensures TryPlayFrom(g, st, w[|st.wordInProgress|..]) ==
      TryPlayFrom(g, PlaceLetter(g, st, g.board.edgeLetters[e][j], e), w[|st.wordInProgress| + 1..])
  {
    var l := g.board.edgeLetters[e][j];
    var rest := w[|st.wordInProgress|..];
    var c := PlaceLetter(g, st, l, e);
    assert c.wordInProgress == st.wordInProgress + [l];
    assert l == w[|st.wordInProgress|] == rest[0];
    FirstEdgeOfOneEdge(g.board, l, e);
    assert rest[1..] == w[|st.wordInProgress| + 1..];
  }

  /**
   * When every letter of `s` lies on one edge only, the greedy placement
   * accepts whatever the DFS accepts (the case `try_playing_on_board` is
   * written for).
   */
  lemma PlayableImpliesTryPlay(g: LetterBoxedGame, w: string)
    requires GameValid(g)
    requires forall i | 0 <= i < |w| :: OnOneEdge(g.board, w[i])
    ensures PlayableFrom(g, w, InitialState()) ==> TryPlay(g, w, None).Some?
  {
    if PlayableFrom(g, w, InitialState()) {
      PlayableFromGreedy(g, w, InitialState());
      assert w[0..] == w;
    }
  }

  // ---------------------------------------------------------------------------
  // old_can_be_played_in_game

  /** `old_can_be_played_in_game(s)`: long enough and made of board letters, edges ignored. */
  predicate OldCanBePlayed(g: LetterBoxedGame, w: string) {
    |w| >= g.minWordLength && forall c | c in w :: c in AllLetters(g.board)
  }

  lemma {:induction false} PlayableOnBoard(g: LetterBoxedGame, w: string, st: LetterBoxedState)
    requires GameValid(g) && FinishSafe(g, st) && st.words == []
    requires forall c | c in st.wordInProgress :: c in AllLetters(g.board)
    requires PlayableFrom(g, w, st)
    ensures forall c | c in w :: c in AllLetters(g.board)
    decreases |w| - |st.wordInProgress|
  {
    if |g.board.edgeLetters| > 0 && Finishes(g, w, st) {
      assert FinishLastWord(g, st).words[0] == st.wordInProgress;
    } else {
      var c :| c in DfsChildren(g, w, st) && PlayableFrom(g, w, c);
      var edges := g.board.edgeLetters;
      DfsChildMove(g, w, st, c);
      var e, j :| 0 <= e < |edges| && 0 <= j < |edges[e]| &&
        PlacementMove(g, st, e, j) && c == PlaceLetter(g, st, edges[e][j], e);
      assert edges[e][j] in AllLetters(g.board);
      PlayableOnBoard(g, w, c);
    }
  }

  /** Whatever the DFS accepts, the set-based check accepts. */
  lemma PlayableImpliesOld(g: LetterBoxedGame, w: string)
    requires GameValid(g)
    ensures PlayableFrom(g, w, InitialState()) ==> OldCanBePlayed(g, w)
  {
    if PlayableFrom(g, w, InitialState()) {
      PlayableNeedsLength(g, w, InitialState());
      PlayableOnBoard(g, w, InitialState());
    }
  }
}
