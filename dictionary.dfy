/**
 * The word list of dictionary.py: a set of lower-cased words together with
 * the prefix trie built from it.
 */
module Dictionaries {
  import opened Trie

  /** The upper-case form of the trie's end marker: Python lower-cases `'Ø'` to `'ø'`. */
  const UpperEndToken: char := 'Ø'

  /** `str.lower` on one character, for ASCII letters and the marker's upper-case form. */
  function LowerChar(c: char): char {
    if 'A' <= c <= 'Z' then (c as int + 32) as char
    else if c == UpperEndToken then EndToken
    else c
  }

  function UpperChar(c: char): char {
    if 'a' <= c <= 'z' then (c as int - 32) as char
    else if c == EndToken then UpperEndToken
    else c
  }

  function Lower(s: string): (r: string)
    ensures |r| == |s| && forall i | 0 <= i < |s| :: r[i] == LowerChar(s[i])
  {
    seq(|s|, i requires 0 <= i < |s| => LowerChar(s[i]))
  }

  function Upper(s: string): (r: string)
    ensures |r| == |s| && forall i | 0 <= i < |s| :: r[i] == UpperChar(s[i])
  {
    seq(|s|, i requires 0 <= i < |s| => UpperChar(s[i]))
  }

  /** `str.isalpha` on one character, for ASCII letters and the end marker in either case. */
  predicate IsAlpha(c: char) {
    'a' <= c <= 'z' || 'A' <= c <= 'Z' || c == EndToken || c == UpperEndToken
  }

  /** A character `_sanitize_line` can return: a lower-case letter, or the end marker. */
  predicate IsLowerLetter(c: char) {
    'a' <= c <= 'z' || c == EndToken
  }

  /** Lower-casing twice is lower-casing once. */
  lemma LowerIdempotent(s: string)
    ensures Lower(Lower(s)) == Lower(s)
  {
  }

  /** Upper- or lower-casing first does not change the lower-cased word. */
  lemma LowerIgnoresCase(s: string)
    ensures Lower(Upper(s)) == Lower(s)
  {
  }

  // ---------------------------------------------------------------------------
  // _sanitize_line

  /** `_sanitize_line(line)`: keep the letters of `line`, lower-cased, in order. */
  function SanitizeLine(line: string): (r: string)
    ensures |r| <= |line|
    ensures forall i | 0 <= i < |r| :: IsLowerLetter(r[i])
    decreases |line|
  {
    if line == [] then []
    else (if IsAlpha(line[0]) then [LowerChar(line[0])] else []) + SanitizeLine(line[1..])
  }

  /** A line that is already lower-case letters (or markers) only is left as it is. */
  lemma {:induction false} SanitizeKeepsLowerWords(line: string)
    requires forall i | 0 <= i < |line| :: IsLowerLetter(line[i])
    ensures SanitizeLine(line) == line
    decreases |line|
  {
    if line != [] {
      SanitizeKeepsLowerWords(line[1..]);
      assert line == [line[0]] + line[1..];
    }
  }

  /** Sanitizing is idempotent. */
  lemma SanitizeIdempotent(line: string)
    ensures SanitizeLine(SanitizeLine(line)) == SanitizeLine(line)
  {
    SanitizeKeepsLowerWords(SanitizeLine(line));
  }

  /**
   * The sanitizer keeps the end marker: a sanitized line holds `'ø'` exactly
   * when the line holds `'ø'` or `'Ø'`. So a word list read from a file can
   * put the marker into the trie; the line `"ø"` is sanitized to itself.
   */
  lemma {:induction false} SanitizeKeepsMarker(line: string)
    ensures EndToken in SanitizeLine(line) <==> EndToken in line || UpperEndToken in line
    ensures SanitizeLine([EndToken]) == [EndToken]
    decreases |line|
  {
    if line != [] {
      SanitizeKeepsMarker(line[1..]);
      assert line == [line[0]] + line[1..];
    }
    assert SanitizeLine([EndToken]) == [EndToken] + SanitizeLine([]);
  }

  // ---------------------------------------------------------------------------
  // Dictionary

  datatype Dictionary = Dictionary(wordSet: set<string>, prefixTree: Arena)

  /** The image of a word list under lower-casing: `set(word.lower() for word in word_list)`. */
  ghost function LowerImage(wordList: seq<string>): set<string> {
    set w | w in wordList :: Lower(w)
  }

  /**
   * What `__init__` establishes: lower-case words, a tree-shaped trie that
   * spells every word, and for marker-free words a trie that spells nothing
   * else and keeps the end-marker discipline.
   */
  ghost predicate Consistent(d: Dictionary) {
    Trie.Valid(d.prefixTree) &&
    (forall w | w in d.wordSet :: Lower(w) == w) &&
    (AllEndFree(d.wordSet) ==>
      MarkersWellFormed(d.prefixTree) &&
      forall s :: Spells(d.prefixTree, s) <==> s in d.wordSet)
  }

  /** `Dictionary(word_list)`. */
  method NewDictionary(wordList: seq<string>) returns (d: Dictionary)
    ensures d.wordSet == LowerImage(wordList)
    ensures Consistent(d)
  {
    var words := set w | w in wordList :: Lower(w);
    forall w | w in words ensures Lower(w) == w {
      var v :| v in wordList && w == Lower(v);
      LowerIdempotent(v);
    }
    var tree := BuildPrefixTree(words);
    d := Dictionary(words, tree);
  }

  /** `__len__`. */
  function Len(d: Dictionary): nat {
    |d.wordSet|
  }

  /** `__contains__`: case-insensitive membership. */
  predicate Contains(d: Dictionary, word: string) {
    Lower(word) in d.wordSet
  }

  /** Every listed word is found, in its own case and upper-cased. */
  lemma ContainsListedWords(wordList: seq<string>, d: Dictionary, w: string)
    requires d.wordSet == LowerImage(wordList) && w in wordList
    ensures Contains(d, w) && Contains(d, Upper(w))
  {
    LowerIgnoresCase(w);
  }

  /** Membership agrees with the trie for marker-free word sets. */
  lemma ContainsAgreesWithTrie(d: Dictionary, word: string)
    requires Consistent(d) && AllEndFree(d.wordSet)
    ensures Contains(d, word) <==> Spells(d.prefixTree, Lower(word))
  {
  }

  /** Duplicates and case variants count once: the length is at most the length of the list. */
  lemma {:induction false} LenAtMostListLength(wordList: seq<string>)
    ensures |LowerImage(wordList)| <= |wordList|
    decreases |wordList|
  {
    if wordList != [] {
      var rest := wordList[1..];
      LenAtMostListLength(rest);
      assert LowerImage(wordList) == LowerImage(rest) + {Lower(wordList[0])} by {
        assert wordList == [wordList[0]] + rest;
      }
    }
  }

  /** A word and its upper-cased form are one entry. */
  lemma CaseVariantsCountOnce(w: string)
    ensures LowerImage([w, Upper(w)]) == {Lower(w)}
    ensures |LowerImage([w, Upper(w)])| == 1
  {
    LowerIgnoresCase(w);
    assert LowerImage([w, Upper(w)]) == {Lower(w), Lower(Upper(w))};
  }

  /** `filter(predicate)`: a fresh dictionary over the words that satisfy `keep`. */
  method Filter(d: Dictionary, keep: string -> bool) returns (r: Dictionary)
    ensures r.wordSet == set w | w in d.wordSet && keep(w) :: Lower(w)
    ensures Consistent(d) ==> r.wordSet == set w | w in d.wordSet && keep(w)
    ensures Consistent(r)
  {
    // list(filter(predicate, self._word_set)), in the set's own order
    var kept: seq<string> := [];
    var rest := d.wordSet;
    while rest != {}
      invariant rest <= d.wordSet
      invariant forall w :: w in kept <==> w in d.wordSet - rest && keep(w)
      decreases rest
    {
      var w :| w in rest;
      if keep(w) {
        kept := kept + [w];
      }
      rest := rest - {w};
    }
    r := NewDictionary(kept);
  }
}
