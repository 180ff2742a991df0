/**
 * `LetterBoxedState` of letter_boxed.py: an immutable snapshot of a partial
 * solution, its two transitions and its predicates. The game a state belongs
 * to is passed alongside instead of being stored in the state.
 */
module States {
  import opened Wrappers
  import opened Trie
  import opened Dictionaries
  import opened Boards

  /** The configuration a state refers to (`LetterBoxedGame`'s fields). */
  datatype LetterBoxedGame = LetterBoxedGame(dictionary: Dictionary, board: LetterBoxedBoard, minWordLength: int)

  /**
   * `subtrie` is the current trie node; `None` is the empty dict that
   * `prefix_tree.get(letter, {})` falls back to.
   */
  datatype LetterBoxedState = LetterBoxedState(
    subtrie: Option<nat>,
    letters: seq<char>,
    words: seq<string>,
    wordInProgress: string,
    edgeIndexSequence: seq<nat>)

  /** The game's trie is a tree and a word needs at least one letter. */
  ghost predicate GameValid(g: LetterBoxedGame) {
    Trie.Valid(g.dictionary.prefixTree) && g.minWordLength >= 1
  }

  function Tree(g: LetterBoxedGame): Arena {
    g.dictionary.prefixTree
  }

  /** `LetterBoxedState(prefix_tree, game)`: nothing placed, positioned at the root. */
  function InitialState(): LetterBoxedState {
    LetterBoxedState(Some(0), [], [], "", [])
  }

  function Last<T>(s: seq<T>): T
    requires |s| > 0
  {
    s[|s| - 1]
  }

  /** `key in self.subtrie`. */
  predicate HasKey(g: LetterBoxedGame, s: LetterBoxedState, key: char) {
    s.subtrie.Some? && s.subtrie.value < |Tree(g)| && key in Tree(g)[s.subtrie.value]
  }

  /** `place_letter(letter, edge_index)`: `self.subtrie[letter]` requires the key. */
  function PlaceLetter(g: LetterBoxedGame, s: LetterBoxedState, letter: char, edgeIndex: nat): LetterBoxedState
    requires HasKey(g, s, letter)
  {
    LetterBoxedState(
      Some(Tree(g)[s.subtrie.value][letter]),
      s.letters + [letter],
      s.words,
      s.wordInProgress + [letter],
      s.edgeIndexSequence + [edgeIndex])
  }

  /** `prefix_tree.get(letter, {})`. */
  function RootChild(g: LetterBoxedGame, letter: char): Option<nat>
    requires |Tree(g)| > 0
  {
    if letter in Tree(g)[0] then Some(Tree(g)[0][letter]) else None
  }

  /** `finish_last_word()`: `self.letters[-1]` requires a placed letter. */
  function FinishLastWord(g: LetterBoxedGame, s: LetterBoxedState): LetterBoxedState
    requires |Tree(g)| > 0 && |s.letters| > 0
  {
    var connect := Last(s.letters);
    LetterBoxedState(
      RootChild(g, connect),
      s.letters,
      s.words + [s.wordInProgress],
      [connect],
      s.edgeIndexSequence)
  }

  /** `is_valid_next_edge_index`: any edge but the one used last. */
  predicate IsValidNextEdgeIndex(s: LetterBoxedState, edgeIndex: nat) {
    !(|s.edgeIndexSequence| > 0 && edgeIndex == Last(s.edgeIndexSequence))
  }

  predicate CanPlaceLetter(g: LetterBoxedGame, s: LetterBoxedState, letter: char, edgeIndex: nat) {
    HasKey(g, s, letter) && IsValidNextEdgeIndex(s, edgeIndex)
  }

  predicate CanFinishWord(g: LetterBoxedGame, s: LetterBoxedState) {
    |s.wordInProgress| >= g.minWordLength && HasKey(g, s, EndToken)
  }

  /** The distinct letter values placed so far, `set(self.letters)`. */
  function LetterSet(letters: seq<char>): set<char> {
    set c | c in letters
  }

  /** `num_unused_dots()`: dots minus distinct letter values placed (may go negative). */
  function NumUnusedDots(g: LetterBoxedGame, s: LetterBoxedState): int {
    g.board.numDots - |LetterSet(s.letters)|
  }

  predicate IsFinalState(g: LetterBoxedGame, s: LetterBoxedState) {
    |s.wordInProgress| < 2 && NumUnusedDots(g, s) == 0
  }

  /** `priority()`: compared lexicographically, lower first. */
  datatype Priority = Priority(numWords: int, unusedDots: int, numLetters: int)

  function GetPriority(g: LetterBoxedGame, s: LetterBoxedState): Priority {
    Priority(|s.words|, NumUnusedDots(g, s), |s.letters|)
  }

  /** Python's `<` on `(a, b, c)` tuples of ints. */
  predicate PriorityLess(a: Priority, b: Priority) {
    a.numWords < b.numWords ||
    (a.numWords == b.numWords && (a.unusedDots < b.unusedDots ||
      (a.unusedDots == b.unusedDots && a.numLetters < b.numLetters)))
  }

  /** `__lt__`. */
  predicate Less(g: LetterBoxedGame, a: LetterBoxedState, b: LetterBoxedState) {
    PriorityLess(GetPriority(g, a), GetPriority(g, b))
  }

  /** `__lt__` is a strict order: irreflexive, asymmetric and transitive, as Python's tuple `<` is. */
  lemma LessStrictOrder(g: LetterBoxedGame, a: LetterBoxedState, b: LetterBoxedState, c: LetterBoxedState)
    ensures !Less(g, a, a)
    ensures Less(g, a, b) ==> !Less(g, b, a)
    ensures Less(g, a, b) && Less(g, b, c) ==> Less(g, a, c)
  {
  }

  /** The tuple `__hash__` is computed from. */
  function Key(s: LetterBoxedState): (seq<nat>, seq<char>, string) {
    (s.edgeIndexSequence, s.letters, s.wordInProgress)
  }

  // ---------------------------------------------------------------------------
  // The invariant of every state the game's generators produce

  /** No two consecutive placements on the same edge. */
  ghost predicate NoRepeatedEdge(edges: seq<nat>) {
    forall i | 0 < i < |edges| :: edges[i - 1] != edges[i]
  }

  /** Each word after the first starts with the last letter of the word before it. */
  ghost predicate Chained(words: seq<string>) {
    forall i, j | 0 <= i && j == i + 1 && j < |words| :: Links(words[i], words[j])
  }

  /** `next` starts with the last letter of `prev`. */
  predicate Links(prev: string, next: string) {
    |prev| > 0 && |next| > 0 && next[0] == Last(prev)
  }

  function Drop1(s: string): string {
    if s == [] then [] else s[1..]
  }

  /**
   * The letters a sequence of words lays on the board: the words glued at
   * their shared connecting letters, then the word in progress after its
   * connecting letter.
   */
  function Glue(words: seq<string>, wip: string): string
    decreases |words|
  {
    if words == [] then wip
    else Glue(words[..|words| - 1], Last(words)) + Drop1(wip)
  }

  /** Every placement used an edge that holds the letter. */
  ghost predicate OnBoard(g: LetterBoxedGame, s: LetterBoxedState) {
    forall i | 0 <= i < |s.edgeIndexSequence| && i < |s.letters| ::
      s.edgeIndexSequence[i] < |g.board.edgeLetters| && s.letters[i] in g.board.edgeLetters[s.edgeIndexSequence[i]]
  }

  /** Every completed word is long enough and is a word of the trie. */
  ghost predicate WordsInDictionary(g: LetterBoxedGame, words: seq<string>)
    requires GameValid(g)
  {
    forall i | 0 <= i < |words| :: |words[i]| >= g.minWordLength && Spells(Tree(g), words[i])
  }

  /**
   * The legality rules as one invariant: no repeated consecutive edge, every
   * letter on its edge, every completed word long enough and ending at an end
   * marker, words chained, letters equal to the glued words, and the trie
   * position equal to the walk of the word in progress (`None` when it leaves
   * the trie).
   */
  ghost predicate Inv(g: LetterBoxedGame, s: LetterBoxedState)
    requires GameValid(g)
  {
    |s.edgeIndexSequence| == |s.letters| &&
    NoRepeatedEdge(s.edgeIndexSequence) &&
    OnBoard(g, s) &&
    WordsInDictionary(g, s.words) &&
    Chained(s.words) &&
    (|s.words| > 0 ==> |s.wordInProgress| >= 1 && s.wordInProgress[0] == Last(Last(s.words))) &&
    s.letters == Glue(s.words, s.wordInProgress) &&
    s.subtrie == Walk(Tree(g), s.wordInProgress)
  }

  /** The last placed letter is the last letter of the word in progress. */
  lemma {:induction false} GlueLast(words: seq<string>, wip: string)
    requires Chained(words) && |wip| >= 1
    requires forall i | 0 <= i < |words| :: |words[i]| >= 1
    requires |words| > 0 ==> wip[0] == Last(Last(words))
    ensures |Glue(words, wip)| > 0 && Last(Glue(words, wip)) == Last(wip)
    decreases |words|
  {
    if words != [] {
      var init := words[..|words| - 1];
      assert Chained(init) by {
        forall i, j | 0 <= i && j == i + 1 && j < |init| ensures Links(init[i], init[j]) {
          assert init[i] == words[i] && init[j] == words[j];
        }
      }
      if |init| > 0 {
        assert Links(words[|words| - 2], words[|words| - 1]);
      }
      GlueLast(init, Last(words));
    }
  }

  lemma InitialStateInv(g: LetterBoxedGame)
    requires GameValid(g)
    ensures Inv(g, InitialState())
  {
  }

  lemma GlueSnoc(words: seq<string>, wip: string, letter: char)
    requires |words| > 0 ==> |wip| >= 1
    ensures Glue(words, wip + [letter]) == Glue(words, wip) + [letter]
  {
    if words != [] {
      assert Drop1(wip + [letter]) == Drop1(wip) + [letter];
    }
  }

  /**
   * `place_letter` from a legal move (the letter is a child of the trie
   * position, lies on the chosen edge, and that edge was not used last) keeps
   * the invariant: the letter and edge are appended, the word in progress
   * grows by the letter and the trie position follows it.
   */
  lemma PlaceLetterInv(g: LetterBoxedGame, s: LetterBoxedState, letter: char, edgeIndex: nat)
    requires GameValid(g) && Inv(g, s)
    requires CanPlaceLetter(g, s, letter, edgeIndex)
    requires edgeIndex < |g.board.edgeLetters| && letter in g.board.edgeLetters[edgeIndex]
    ensures Inv(g, PlaceLetter(g, s, letter, edgeIndex))
  {
    var r := PlaceLetter(g, s, letter, edgeIndex);
    WalkSnoc(Tree(g), s.wordInProgress, letter);
    assert r.subtrie == Walk(Tree(g), r.wordInProgress);
    GlueSnoc(s.words, s.wordInProgress, letter);
    assert r.letters == Glue(r.words, r.wordInProgress);
    assert |r.words| > 0 ==> r.wordInProgress[0] == s.wordInProgress[0];
    NoRepeatedEdgeSnoc(s.edgeIndexSequence, edgeIndex);
    PlaceLetterOnBoard(g, s, letter, edgeIndex);
  }

  lemma NoRepeatedEdgeSnoc(edges: seq<nat>, e: nat)
    requires NoRepeatedEdge(edges) && (|edges| > 0 ==> e != Last(edges))
    ensures NoRepeatedEdge(edges + [e])
  {
    var r := edges + [e];
    forall i | 0 < i < |r| ensures r[i - 1] != r[i] {
      if i < |edges| {
        assert r[i - 1] == edges[i - 1] && r[i] == edges[i];
      }
    }
  }

  lemma PlaceLetterOnBoard(g: LetterBoxedGame, s: LetterBoxedState, letter: char, edgeIndex: nat)
    requires OnBoard(g, s) && HasKey(g, s, letter) && |s.edgeIndexSequence| == |s.letters|
    requires edgeIndex < |g.board.edgeLetters| && letter in g.board.edgeLetters[edgeIndex]
    ensures OnBoard(g, PlaceLetter(g, s, letter, edgeIndex))
  {
    var r := PlaceLetter(g, s, letter, edgeIndex);
    forall i | 0 <= i < |r.edgeIndexSequence| && i < |r.letters|
      ensures r.edgeIndexSequence[i] < |g.board.edgeLetters| && r.letters[i] in g.board.edgeLetters[r.edgeIndexSequence[i]]
    {
      if i < |s.letters| {
        assert r.letters[i] == s.letters[i] && r.edgeIndexSequence[i] == s.edgeIndexSequence[i];
      }
    }
  }

  lemma ChainedSnoc(words: seq<string>, w: string)
    requires Chained(words) && |w| > 0
    requires |words| > 0 ==> Links(Last(words), w)
    ensures Chained(words + [w])
  {
    var r := words + [w];
    forall i, j | 0 <= i && j == i + 1 && j < |r| ensures Links(r[i], r[j]) {
      if j < |words| {
        assert r[i] == words[i] && r[j] == words[j];
      }
    }
  }

  /**
   * `finish_last_word` when `can_finish_word` holds: a letter has been placed,
   * the word in progress becomes a completed word, and the new word in progress
   * is the connecting letter, positioned at its root child.
   */
  lemma FinishLastWordInv(g: LetterBoxedGame, s: LetterBoxedState)
    requires GameValid(g) && Inv(g, s) && CanFinishWord(g, s)
    ensures |s.letters| > 0
    ensures Inv(g, FinishLastWord(g, s))
    ensures Last(FinishLastWord(g, s).words) == s.wordInProgress
  {
    assert |s.letters| > 0 && Last(s.letters) == Last(s.wordInProgress) by {
      WordsNonEmpty(g, s.words);
      GlueLast(s.words, s.wordInProgress);
    }
    var connect := Last(s.letters);
    var r := FinishLastWord(g, s);
    assert r.words == s.words + [s.wordInProgress] && r.wordInProgress == [connect];
    assert r.letters == Glue(r.words, r.wordInProgress) by {
      FinishGlue(s.words, s.wordInProgress, connect);
    }
    assert r.subtrie == Walk(Tree(g), r.wordInProgress) by {
      FinishWalk(g, connect);
    }
    assert Chained(r.words) by {
      ChainedSnoc(s.words, s.wordInProgress);
    }
    assert WordsInDictionary(g, r.words) by {
      WordsSnoc(g, s.words, s.wordInProgress);
    }
    InvIntro(g, s, r);
  }

  /** The invariant of a state that keeps another's placements and satisfies the remaining conjuncts. */
  lemma InvIntro(g: LetterBoxedGame, s: LetterBoxedState, r: LetterBoxedState)
    requires GameValid(g) && Inv(g, s)
    requires r.letters == s.letters && r.edgeIndexSequence == s.edgeIndexSequence
    requires WordsInDictionary(g, r.words) && Chained(r.words)
    requires |r.words| > 0 ==> |r.wordInProgress| >= 1 && r.wordInProgress[0] == Last(Last(r.words))
    requires r.letters == Glue(r.words, r.wordInProgress) && r.subtrie == Walk(Tree(g), r.wordInProgress)
    ensures Inv(g, r)
  {
  }

  lemma WordsNonEmpty(g: LetterBoxedGame, words: seq<string>)
    requires GameValid(g) && WordsInDictionary(g, words)
    ensures forall i | 0 <= i < |words| :: |words[i]| >= 1
  {
  }

  /** Finishing the word in progress leaves the glued letters as they were. */
  lemma FinishGlue(words: seq<string>, wip: string, connect: char)
    ensures Glue(words + [wip], [connect]) == Glue(words, wip)
  {
    assert (words + [wip])[..|words|] == words;
    assert Drop1([connect]) == [];
  }

  /** The root child of the connecting letter is the walk of that one letter. */
  lemma FinishWalk(g: LetterBoxedGame, connect: char)
    requires GameValid(g)
    ensures RootChild(g, connect) == Walk(Tree(g), [connect])
  {
    WalkSnoc(Tree(g), [], connect);
    assert [] + [connect] == [connect];
  }

  lemma WordsSnoc(g: LetterBoxedGame, words: seq<string>, w: string)
    requires GameValid(g) && WordsInDictionary(g, words)
    requires |w| >= g.minWordLength && Spells(Tree(g), w)
    ensures WordsInDictionary(g, words + [w])
  {
    var r := words + [w];
    forall i | 0 <= i < |r| ensures |r[i]| >= g.minWordLength && Spells(Tree(g), r[i]) {
      if i < |words| {
        assert r[i] == words[i];
      }
    }
  }

  /** Placing a new letter value uses up one more dot; repeating a value uses none. */
  lemma PlaceLetterUnusedDots(g: LetterBoxedGame, s: LetterBoxedState, letter: char, edgeIndex: nat)
    requires HasKey(g, s, letter)
    ensures NumUnusedDots(g, PlaceLetter(g, s, letter, edgeIndex)) ==
            NumUnusedDots(g, s) - (if letter in s.letters then 0 else 1)
  {
    var before := LetterSet(s.letters);
    var after := LetterSet(PlaceLetter(g, s, letter, edgeIndex).letters);
    assert after == before + {letter};
    if letter in s.letters {
      assert letter in before;
      assert after == before;
    } else {
      assert letter !in before;
      assert |after| == |before| + 1;
    }
  }

  /** Nothing placed: every dot is unused. */
  lemma InitialUnusedDots(g: LetterBoxedGame)
    ensures NumUnusedDots(g, InitialState()) == g.board.numDots
  {
    assert LetterSet(InitialState().letters) == {};
  }

  lemma {:induction false} LetterSetSize(letters: seq<char>)
    ensures |LetterSet(letters)| <= |letters|
    decreases |letters|
  {
    if letters != [] {
      var init := letters[..|letters| - 1];
      LetterSetSize(init);
      assert LetterSet(letters) == LetterSet(init) + {Last(letters)};
    }
  }

  lemma {:induction false} SubsetSize(a: set<char>, b: set<char>)
    requires a <= b
    ensures |a| <= |b|
    decreases |a|
  {
    if a != {} {
      var y :| y in a;
      SubsetSize(a - {y}, b - {y});
    }
  }

  lemma SubsetFull(a: set<char>, b: set<char>)
    requires a <= b && |a| >= |b|
    ensures a == b
  {
    if a != b {
      var x :| x in b && x !in a;
      SubsetSize(a, b - {x});
    }
  }

  /**
   * A final state with the invariant has placed every letter of the board,
   * on a board that has no more letters than dots (every board
   * `LetterBoxedBoard(letters, n)` builds).
   */
  lemma FinalStateCoversBoard(g: LetterBoxedGame, s: LetterBoxedState)
    requires GameValid(g) && Inv(g, s) && IsFinalState(g, s)
    requires |AllLetters(g.board)| <= g.board.numDots
    ensures LetterSet(s.letters) == LetterSet(AllLetters(g.board))
  {
    var board := LetterSet(AllLetters(g.board));
    forall c | c in LetterSet(s.letters) ensures c in board {
      var i :| 0 <= i < |s.letters| && s.letters[i] == c;
      assert c in g.board.edgeLetters[s.edgeIndexSequence[i]];
    }
    LetterSetSize(AllLetters(g.board));
    SubsetFull(LetterSet(s.letters), board);
  }

  /** Boards built from a letter string hold at most one letter per dot. */
  lemma NewBoardFitsDots(letters: string, numSides: nat)
    requires numSides >= 1
    ensures |AllLetters(NewBoard(letters, numSides))| <= NewBoard(letters, numSides).numDots
  {
    BoardSpellsLetters(letters, numSides);
    EdgesPrefix(letters, numSides, numSides);
  }

  /**
   * The `__hash__` key fixes everything of a state with the invariant except
   * its completed words: states with equal keys sit at the same trie position
   * and are equal exactly when their words are.
   */
  lemma SameKeySamePosition(g: LetterBoxedGame, a: LetterBoxedState, b: LetterBoxedState)
    requires GameValid(g) && Inv(g, a) && Inv(g, b) && Key(a) == Key(b)
    ensures a.subtrie == b.subtrie
    ensures a == b <==> a.words == b.words
  {
  }
}
