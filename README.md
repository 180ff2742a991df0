# Letter Boxed solver, modelled in Dafny

The project models the core of a solver for the Letter Boxed puzzle. Letters sit on the edges of a box. A solution is a chain of dictionary words in which every word starts with the last letter of the previous one. Two consecutive letters never come from the same edge, and every letter of the box gets used.

The core has two parts.

- **The prefix-trie dictionary** (`dictionary.py`). It holds a set of lower-cased words plus a trie of nested maps in which the key `ø` marks the end of a word.
  - The trie is modelled as an arena in module `Trie`: a sequence of nodes, each a map from characters to the index of a child node, with node 0 as the root.
    - `WellShaped` says every child lies after its parent.
    - `UniqueParents` says no node has two parents.
    - `Walk` follows a string from the root.
    - `Spells` says that walk ends at a node holding the end marker.
  - `_insert_into_prefix_trie` is `PrefixTrie.Insert`, a loop that walks a node pointer and adds fresh children in place. Its specification function is `Inserted`.
  - `_build_prefix_tree` is `BuildPrefixTree`.
  - The `Dictionary` class is in module `Dictionaries`.
- **The game** (`letter_boxed.py`).
  - `LetterBoxedBoard` is module `Boards`.
  - The immutable `LetterBoxedState`, with its transitions and predicates, is module `States`.
  - The child generators, the greedy word placement, the two playability checks and the dictionary narrowing done at construction are module `Games`.
  - The best-first `solve` loop is module `Solver`.

The central invariant is `States.Inv`. It collects the legality rules of a state:
- no two consecutive placements use the same edge;
- every letter was placed on an edge that holds it;
- every completed word is long enough and is a word of the trie;
- the words are chained;
- the placed letters are the words glued at their connecting letters;
- the trie position is the walk of the word in progress, or `None` once that walk has left the trie.

Both transitions keep the invariant. So do both child generators and the greedy placement. Every state `solve` queues satisfies it.

The three playability checks are related as follows:
- whatever the greedy placement accepts, the DFS accepts;
- whatever the DFS accepts, the set-based check accepts;
- on a board where each letter of the word lies on one edge only, the greedy placement accepts whatever the DFS accepts.

Words containing the end marker `ø` break the trie. Inserting `"aø"` makes `"a"` a word of the trie, as `Trie.MarkerInWordSpellsPrefix` shows. Inserting `"a"` after `"aø"` then replaces the marker node, which loses `"aø"`. So the trie's exactness holds only for word sets free of the marker. `Trie.AllEndFree` states that condition. The sanitizer does not enforce it: `ø` is a letter to Python's `isalpha`, and `'Ø'.lower()` is `ø`, so `Dictionaries.SanitizeKeepsMarker` shows that a line holding either character leaves the marker in the word. A word list read from a file can therefore break the trie.

Two behaviours of the code are easy to misread. The model follows the code in both.
- **Greedy placement.** `try_playing_on_board` takes the first edge that holds the letter and gives up if that edge is the one used just before (`letter_boxed.py:171-179`). It does not look for a later edge that differs from the previous one.
- **Deduplication.** The `seen` set of `solve` compares whole states with dataclass equality. The `__hash__` key (edge history, letters, word in progress) only narrows the lookup. Two states with the same key but different completed words are therefore both queued. `States.SameKeySamePosition` shows that this happens only through the completed words.

## Model

| member | source | states |
|---|---|---|
| `Trie.Inserted` | dictionary.py:32-39 | the trie after `_insert_into_prefix_trie(trie, word)`, defined character by character: reuse the child if present, else add an empty node, and mark the end; what it spells is stated by `InsertSpellsWord`, `InsertKeepsPaths` and `InsertWordSet` |
| `Trie.PrefixTrie.Insert` | dictionary.py:32-39 | the loop leaves the trie equal to `Inserted(old trie, word)`: one step per character, reusing an existing child or adding a fresh empty one, then the end marker |
| `Trie.InsertSpellsWord` | dictionary.py:35-39 | after inserting `w` into a tree-shaped trie, walking `w` from the root reaches a node holding the end marker (for `""` the root itself), and the trie is still a tree |
| `Trie.InsertKeepsPaths` | dictionary.py:35-38 | for a trie whose end markers are all leaves (`EndLeavesFrom`, which every trie built from marker-free words has, by `BuildPrefixTree`), insertion only adds: every string that could be walked before can still be walked, and every word of the trie stays a word |
| `Trie.InsertWordSet` | dictionary.py:35-39 | inserting a marker-free word into a trie that keeps the marker discipline adds exactly that word to the words it spells, and keeps the discipline (only the marker leads to an empty node) |
| `Trie.MarkerInWordSpellsPrefix` | dictionary.py:35-39 | a word containing the marker, `"aø"`, makes its prefix `"a"` a word of the trie |
| `Trie.WalkInjective` | dictionary.py:7-11 | in a tree-shaped trie two strings that reach the same node are equal (no node is shared) |
| `Trie.BuildPrefixTree` | dictionary.py:42-46 | the folded trie is a tree; for a marker-free word set it keeps the marker discipline (so every end marker is a leaf, `EndLeavesFrom`) and spells exactly the words of the set |
| `Dictionaries.NewDictionary` | dictionary.py:14-16 | the word set is the lower-cased image of the list, and the trie agrees with it as `BuildPrefixTree` promises |
| `Dictionaries.Len` | dictionary.py:18-19 | `__len__`: the number of words in the word set; bounded by `LenAtMostListLength` |
| `Dictionaries.Contains` | dictionary.py:21-22 | `__contains__`: the lower-cased word is in the word set; characterised by `ContainsListedWords` and `ContainsAgreesWithTrie` |
| `Dictionaries.LenAtMostListLength` | dictionary.py:15-19 | `__len__` counts distinct lower-cased words, never more than the list's length |
| `Dictionaries.CaseVariantsCountOnce` | dictionary.py:15-19 | a word and its upper-cased form make one entry |
| `Dictionaries.ContainsListedWords` | dictionary.py:21-22 | every listed word is contained, in its own case and upper-cased |
| `Dictionaries.ContainsAgreesWithTrie` | dictionary.py:14-22 | for marker-free word sets, `__contains__` holds exactly when the trie spells the lower-cased word |
| `Dictionaries.Filter` | dictionary.py:27-28 | the new word set is exactly the kept words of the old one (their lower-cased forms in general), and the new dictionary is consistent |
| `Dictionaries.SanitizeLine` | dictionary.py:55-56 | the result is no longer than the line and holds only lower-case letters and the end marker `ø` |
| `Dictionaries.SanitizeKeepsLowerWords` | dictionary.py:55-56 | a line made of lower-case letters and markers is left as it is |
| `Dictionaries.SanitizeIdempotent` | dictionary.py:55-56 | sanitizing twice gives the same as sanitizing once |
| `Dictionaries.SanitizeKeepsMarker` | dictionary.py:50-56 | a sanitized line holds the end marker exactly when the line holds `ø` or `Ø`; the line `"ø"` is sanitized to itself, which is how the marker reaches the trie through `Dictionary.open` |
| `Boards.NewBoard` | letter_boxed.py:108-116 | `num_sides` edges, each `len(letters) // num_sides` letters long, and `num_dots` is `len(letters)` |
| `Boards.BoardSpellsLetters` | letter_boxed.py:108-116 | the edges, one after another, are the lower-cased prefix of length `num_sides * (len(letters) // num_sides)`; any remainder is dropped |
| `Boards.AllLetters` | letter_boxed.py:118-119 | a character is among all letters exactly when some edge holds it |
| `Boards.FirstEdge` | letter_boxed.py:171-175 | `Some(e)` is the lowest edge holding the letter; `None` means no edge holds it |
| `States.FinishLastWord` | letter_boxed.py:38-49 | `finish_last_word`: the word in progress joins the words, the last placed letter becomes the new word in progress, at its root child or `None`; its effect on the invariant is `FinishLastWordInv` |
| `States.PlaceLetter` | letter_boxed.py:51-62 | `place_letter`: letter, edge and word in progress each grow by one, the position moves to the letter's child, the words stay; its effect on the invariant is `PlaceLetterInv` |
| `States.IsValidNextEdgeIndex` | letter_boxed.py:64-68 | any edge except the one used last; every edge when nothing is placed |
| `States.CanPlaceLetter` | letter_boxed.py:70-72 | the letter is a child of the current position and the edge is a valid next edge |
| `States.CanFinishWord` | letter_boxed.py:74-76 | the word in progress is at least the minimum length and the position holds the end marker |
| `States.NumUnusedDots` | letter_boxed.py:78-80 | the board's dots minus the number of distinct letter values placed; its behaviour is stated by `InitialUnusedDots` and `PlaceLetterUnusedDots` |
| `States.IsFinalState` | letter_boxed.py:83-85 | at most one letter in progress and no unused dot; what it implies is `FinalStateCoversBoard` |
| `States.GetPriority` | letter_boxed.py:87-89 | the triple `(len(words), num_unused_dots, len(letters))` |
| `States.Less` | letter_boxed.py:91-92 | lexicographic `<` on priorities, as Python's tuple comparison |
| `States.LessStrictOrder` | letter_boxed.py:87-92 | `__lt__` is irreflexive, asymmetric and transitive |
| `States.Key` | letter_boxed.py:102-104 | the hash key `(edge_index_sequence, letters, word_in_progress)`; what it determines is `SameKeySamePosition` |
| `States.InitialStateInv` | letter_boxed.py:28-36 | the initial state (root position, nothing placed) satisfies the invariant |
| `States.GlueLast` | letter_boxed.py:38-41 | the last placed letter is the last letter of the word in progress, the letter `finish_last_word` connects with |
| `States.PlaceLetterInv` | letter_boxed.py:51-72 | a placement of a letter that is a child of the trie position, on an edge holding it that was not used last, keeps the invariant: letter and edge appended, the word in progress grown, the position following it, the words unchanged |
| `States.FinishLastWordInv` | letter_boxed.py:38-49 | finishing a finishable word in progress keeps the invariant: the word joins the completed words, a letter has been placed, and the new word in progress is the connecting letter at its root child |
| `States.PlaceLetterUnusedDots` | letter_boxed.py:78-80 | placing a letter value not placed before uses one more dot; repeating a value uses none |
| `States.InitialUnusedDots` | letter_boxed.py:78-80 | the initial state has `num_dots` unused dots |
| `States.FinalStateCoversBoard` | letter_boxed.py:83-85 | a final state with the invariant has placed every letter of the board |
| `States.NewBoardFitsDots` | letter_boxed.py:108-119 | a built board holds no more letters than dots, the condition `FinalStateCoversBoard` needs |
| `States.SameKeySamePosition` | letter_boxed.py:102-104 | two states with the invariant and the same hash key have the same trie position, and are equal exactly when their completed words are |
| `Games.Shuffle` | letter_boxed.py:148 | the shuffled list is a permutation of the input |
| `Games.LetterChildrenMembers` | letter_boxed.py:137-147 | a state is a letter child exactly when it is a legal placement of some edge's letter or the finished state |
| `Games.LetterChildrenInv` | letter_boxed.py:137-147 | every letter child of a state with the invariant has it too |
| `Games.LetterPathInv` | letter_boxed.py:137-147 | every state reachable from the initial state through letter children satisfies the invariant |
| `Games.GetChildLetterStates` | letter_boxed.py:137-149 | the returned list is a permutation of the placements taken edge by edge, plus the finished state when the word can be finished |
| `Games.TryPlayFrom` | letter_boxed.py:167-180 | the greedy placement as a recursion over the remaining letters: the first edge holding the letter, `None` when there is none or a letter cannot be placed there, and at the end the finish test; characterised by `TryPlayFromSucceeds`, `TryPlayFromResult` and `TryPlayFromInv` |
| `Games.TryPlay` | letter_boxed.py:161-166 | `try_playing_on_board(s, start_state)`: start from the initial state when none is given, and skip the connecting letter after a completed word |
| `Games.TryPlayingOnBoard` | letter_boxed.py:161-180 | the loop computes the greedy placement `TryPlay` of the word from the start state |
| `Games.TryPlayFromResult` | letter_boxed.py:167-180 | a successful placement appends the word's letters and their edges, completes the word in progress extended by them, and leaves the connecting letter as the new word in progress |
| `Games.TryPlayFromInv` | letter_boxed.py:170-180 | a successful placement from a state with the invariant yields a state with it |
| `Games.TryPlayFromSucceeds` | letter_boxed.py:170-180 | the placement succeeds exactly when every letter lies on an edge, consecutive first edges differ (also from the edge used last), and the extended word in progress is long enough and a word of the trie |
| `Games.TryPlayInitial` | letter_boxed.py:161-180 | from the initial state the placement of `s` succeeds exactly when `s` is long enough, is a word of the trie and its first edges alternate, and then its words are `(s,)` |
| `Games.TryPlayAfterWord` | letter_boxed.py:161-180 | after a completed word, playing a word that starts with the connecting letter appends that whole word and keeps the invariant |
| `Games.WordChildInjective` | letter_boxed.py:151-157 | different applicable words never give the same child |
| `Games.GetChildWordStates` | letter_boxed.py:151-159 | the children are exactly the successful placements of the applicable dictionary words, each appearing once when the state has the invariant |
| `Games.WordChildrenExtend` | letter_boxed.py:151-157 | from the initial state or a finished word, each word child appends one dictionary word, keeps the invariant and ends at a finished word again |
| `Games.NewGame` | letter_boxed.py:128-133 | the game's word set is exactly the words the greedy placement accepts from the initial state of the unnarrowed game; each is long enough, a word of the trie, and has alternating first edges |
| `Games.PlayableNeedsLength` | letter_boxed.py:187-207 | only a word of at least the minimum length can be found by the DFS |
| `Games.ExpandState` | letter_boxed.py:195-210 | one popped state either finishes as `(s,)` on the first edge, or yields its prefix-keeping placements taken edge by edge |
| `Games.CanBePlayedInGameDfs` | letter_boxed.py:182-212 | the stack search returns true exactly when some path of legal placements along prefixes of `s` finishes as the one-word solution `(s,)` |
| `Games.TryPlayImpliesPlayable` | letter_boxed.py:161-212 | every word the greedy placement accepts, the DFS accepts |
| `Games.PlayableImpliesTryPlay` | letter_boxed.py:161-212 | when each letter of the word lies on one edge only, every word the DFS accepts, the greedy placement accepts |
| `Games.OldCanBePlayed` | letter_boxed.py:214-217 | `old_can_be_played_in_game`: the word is long enough and every letter is a board letter; implied by the DFS check through `PlayableImpliesOld` |
| `Games.PlayableImpliesOld` | letter_boxed.py:182-217 | every word the DFS accepts is long enough and made of board letters, so the set-based check accepts it |
| `Solver.MinimalExists` | letter_boxed.py:87-92 | `__lt__` on priorities is a strict order, so every non-empty frontier has a state of least priority |
| `Solver.ExtractMin` | letter_boxed.py:221-228 | the dequeued state has no state of strictly lower priority `(len(words), num_unused_dots, len(letters))` in the frontier |
| `Solver.ChildStates` | letter_boxed.py:220 | the chosen strategy's children: a permutation of the letter children, or exactly the word children with none repeated; each has the invariant (and a finished word under the word strategy) |
| `Solver.EnqueueChildren` | letter_boxed.py:231-235 | the loop over the children: the queue and the queued sequence each gain exactly `Unseen(children, seen, ...)`, the children in order that are not in `seen`, where under `'letter'` each one joins `seen` as the loop passes it; `seen` becomes `SeenAfter(children, ...)` (all the children added under `'letter'`, unchanged under `'word'`); each new queued state records the last dequeue as its parent; every child ends up queued; and the search invariant `Search` is kept |
| `Solver.EnqueueChild` | letter_boxed.py:232-235 | one pass of the loop body: an unseen child is appended to the queue, and joins `seen` under `'letter'`; a seen child changes nothing; the loop invariant `Enqueued` advances by one child |
| `Solver.UnseenWithin` | letter_boxed.py:232-234 | the states the loop queues are children not in `seen`, no more of them than there are children |
| `Solver.UnseenCovers` | letter_boxed.py:232-234 | every child is either in `seen` or queued by the loop |
| `Solver.UnseenCounts` | letter_boxed.py:232-235 | under `'word'` `seen` is not updated, so every unseen child is queued exactly as often as it occurs among the children |
| `Solver.UnseenOnce` | letter_boxed.py:231-233 | when the children are distinct, as the word children are, every unseen child is queued exactly once |
| `Solver.UnseenDistinct` | letter_boxed.py:232-235 | under `'letter'` a queued child is added to `seen` at once, so the loop queues no state twice |
| `Solver.SeenAfterIs` | letter_boxed.py:234-235 | after the loop a state is in `seen` exactly when it was before or, under `'letter'`, is one of the children |
| `Solver.SearchStep` | letter_boxed.py:227-235 | one pass of the loop: the state taken is a least-priority state of the queue, recorded as the next dequeue with the queue as it was and the number of states queued so far; it is appended to the solutions exactly when final; `children` are exactly its children (a permutation of `LetterChildren` under `'letter'`); the new queue is the old one less the state taken followed by `Unseen(children, seen, ...)`, which is also what the queued sequence gains, each entry with the new dequeue as parent; `seen` becomes `SeenAfter(children, seen, ...)`; `Search` and the closure of the dequeued states under children are kept |
| `Solver.Solve` | letter_boxed.py:219-240 | the solutions are exactly the final states among the dequeued ones, in order; the initial state is queued and dequeued first; at most `fuel` states are dequeued and fewer only once the queue is empty; each dequeued state had least priority in the queue of its moment, which held exactly the states queued so far less those dequeued, and the states queued by then were the initial state and exactly the children of the earlier dequeues (`PinnedOk`); every later queued state is a child of an earlier dequeued one, and every child of a dequeued state is queued; every queued state satisfies the invariant; under `'letter'` no state is queued twice |

## Left out

- Console output and interaction are not modelled: `print_it`, `__repr__`, the prints in the game constructor and the `__main__` block.
- `Dictionary.open` reads a file and is not modelled. `_sanitize_line` is modelled on its own.
- `Dictionaries.SanitizeLine`: `isalpha` and `lower` cover the ASCII letters and the marker `ø`/`Ø` only. Python also keeps other letters (`é`, `ß`, …) that this model drops, and lower-cases them by Unicode rules.
- `Dictionaries.NewDictionary`, `Dictionaries.Contains`: `word.lower()` (dictionary.py:15, dictionary.py:22) is modelled on the ASCII letters and `Ø` only; other characters are left as they are.
- `Boards.NewBoard`: `letters[...].lower()` (letter_boxed.py:114) has the same restriction.
- `Trie.BuildPrefixTree`: exactness of the trie and the marker discipline are promised only for word sets free of `ø`, because the code does not keep them otherwise.
- `Dictionaries.NewDictionary`: the trie's exactness is conditional on a marker-free word set, for the same reason.
- `__iter__` and the iteration order of sets are arbitrary choices (`:|`), in `_build_prefix_tree`, in `filter` and in `get_child_word_states`.
- `random.shuffle` is an arbitrary permutation built by nondeterministic swaps. The child lists are therefore specified up to permutation.
- `queue.PriorityQueue` is a sequence. `ExtractMin` may return any state of least priority: the heap's order among equal priorities is not modelled.
- `Solver.Solve` does not model the generator's laziness. It runs for at most `fuel` dequeues and returns the solutions yielded so far. The real loop need not terminate.
- `Solver.Solve`: under `'word'` no state is claimed to be queued only once across dequeues. `seen` holds only the initial state there, so that would rest on distinct states having distinct children, which is not proved. `SearchStep`'s contract, with `UnseenOnce`, does give that each unseen word child is queued exactly once within one dequeue; `Solve`'s contract does not carry that fact.
- The state's `game` field is a parameter of every operation instead of a field.
- The state's `subtrie` dict is a node index. `None` stands for the `{}` fallback.
  - Python compares subtrie dicts by content. The model compares node indices.
  - For states with the invariant the two agree, because the position is fixed by the word in progress.
- `Trie.PrefixTrie.Insert`: assigning `trie[c] = {}` appends a fresh node. Overwriting an existing end marker leaves the old node unreachable rather than freeing it.
- `Games.CanBePlayedInGameDfs`: the loop over edges is the separate method `ExpandState`, which pushes its children after the loop rather than edge by edge. The finish test does not depend on the edge and returns at the first edge, so the outcome is the same.
- Every game operation requires `min_word_length >= 1`. Below that, the code can call `finish_last_word` with no letter placed, which raises an `IndexError`.
- `LetterBoxedBoard` requires `num_sides >= 1`, as a `nat`. With zero sides the code divides by zero. A negative `num_sides` is accepted by the code and gives an empty edge list; the model does not cover it.
- Default arguments (`num_sides=4`, `min_word_length=3`, `strategy='word'`) are not modelled: the callers pass every value.
- `get_child_word_states` requires every dictionary word to be non-empty, since `word[0]` raises on `""`. Games built by `NewGame` satisfy this.
- `letter_boxed_test.py` is not modelled: it needs an external word list and a test library.
