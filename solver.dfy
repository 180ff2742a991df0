/**
 * `LetterBoxedGame.solve` of letter_boxed.py: best-first search over states
 * ordered by `priority()`, yielding every final state it dequeues.
 */
module Solver {
  import opened Wrappers
  import opened Trie
  import opened Dictionaries
  import opened States
  import opened Games

  /** `frontier[k]` has no state of strictly lower priority beside it. */
  predicate IsMinimal(g: LetterBoxedGame, frontier: seq<LetterBoxedState>, k: nat) {
    k < |frontier| && forall i | 0 <= i < |frontier| :: !Less(g, frontier[i], frontier[k])
  }

  /** `__lt__` is a strict order, so a non-empty frontier has a minimal state. */
  lemma {:induction false} MinimalExists(g: LetterBoxedGame, frontier: seq<LetterBoxedState>)
    requires |frontier| > 0
    ensures exists k | 0 <= k < |frontier| :: IsMinimal(g, frontier, k)
  {
    var n := |frontier|;
    if n > 1 {
      var init := frontier[..n - 1];
      MinimalExists(g, init);
      var k :| 0 <= k < |init| && IsMinimal(g, init, k);
      if Less(g, frontier[n - 1], frontier[k]) {
        assert forall i | 0 <= i < n - 1 :: frontier[i] == init[i];
        assert IsMinimal(g, frontier, n - 1);
      } else {
        assert forall i | 0 <= i < n - 1 :: frontier[i] == init[i];
        assert IsMinimal(g, frontier, k);
      }
    } else {
      assert IsMinimal(g, frontier, 0);
    }
  }

  /** `queue.get()`: the position of some state of least priority; ties may go either way. */
  method ExtractMin(g: LetterBoxedGame, frontier: seq<LetterBoxedState>) returns (k: nat)
    requires |frontier| > 0
    ensures IsMinimal(g, frontier, k)
  {
    MinimalExists(g, frontier);
    k :| 0 <= k < |frontier| && IsMinimal(g, frontier, k);
  }

  /** No state occurs twice. */
  ghost predicate Distinct(xs: seq<LetterBoxedState>) {
    forall x :: multiset(xs)[x] <= 1
  }

  /** What every queued state satisfies: the invariant, and a word boundary under the word strategy. */
  ghost predicate Queued(g: LetterBoxedGame, strategy: string, x: LetterBoxedState)
    requires GameValid(g)
  {
    Inv(g, x) && FinishSafe(g, x) && (strategy != "letter" ==> WordBoundary(x))
  }

  /** `c` is one of the states `get_child_states(x)` returns under `strategy`. */
  ghost predicate ChildOf(g: LetterBoxedGame, strategy: string, x: LetterBoxedState, c: LetterBoxedState) {
    GameValid(g) && FinishSafe(g, x) &&
    if strategy == "letter" then c in LetterChildren(g, x)
    else (forall w | w in g.dictionary.wordSet :: |w| > 0) && c in WordChildren(g, x)
  }

  /** Every child the chosen generator returns for a queued state is queued-worthy. */
  method ChildStates(g: LetterBoxedGame, strategy: string, state: LetterBoxedState) returns (children: seq<LetterBoxedState>)
    requires GameValid(g) && Queued(g, strategy, state)
    requires strategy != "letter" ==> forall w | w in g.dictionary.wordSet :: |w| > 0
    ensures forall c | c in children :: Queued(g, strategy, c)
    ensures strategy == "letter" ==> multiset(children) == multiset(LetterChildren(g, state))
    ensures strategy != "letter" ==> Distinct(children)
    ensures forall c :: c in children <==> ChildOf(g, strategy, state, c)
  {
    if strategy == "letter" {
      children := GetChildLetterStates(g, state);
      LetterChildrenInv(g, state);
      forall c ensures c in children <==> c in LetterChildren(g, state) {
        assert c in children <==> c in multiset(children);
        assert c in LetterChildren(g, state) <==> c in multiset(LetterChildren(g, state));
      }
    } else {
      children := GetChildWordStates(g, state);
      WordChildrenExtend(g, state);
    }
  }

  /** The final states of `xs`, in order: what `solve` yields while it dequeues `xs`. */
  function Finals(g: LetterBoxedGame, xs: seq<LetterBoxedState>): seq<LetterBoxedState>
    decreases |xs|
  {
    if xs == [] then [] else Finals(g, xs[..|xs| - 1]) + (if IsFinalState(g, Last(xs)) then [Last(xs)] else [])
  }

  lemma FinalsSnoc(g: LetterBoxedGame, xs: seq<LetterBoxedState>, x: LetterBoxedState)
    ensures Finals(g, xs + [x]) == Finals(g, xs) + (if IsFinalState(g, x) then [x] else [])
  {
    assert (xs + [x])[..|xs|] == xs;
  }

  /** One `queue.get()`: the queue as it was, the position taken, and how many states had been queued by then. */
  datatype Dequeue = Dequeue(frontier: seq<LetterBoxedState>, pick: nat, queuedBefore: nat)

  /**
   * The `j`-th dequeued state was a least-priority state of the queue at that
   * moment, and that queue held exactly the states queued so far, less those
   * already dequeued.
   */
  ghost predicate TraceOk(g: LetterBoxedGame, enqueued: seq<LetterBoxedState>, dequeued: seq<LetterBoxedState>, trace: seq<Dequeue>) {
    |trace| == |dequeued| && forall j | 0 <= j < |trace| :: StepOk(g, enqueued, dequeued, trace, j)
  }

  ghost predicate StepOk(g: LetterBoxedGame, enqueued: seq<LetterBoxedState>, dequeued: seq<LetterBoxedState>, trace: seq<Dequeue>, j: nat) {
    j < |trace| && j < |dequeued| &&
    IsMinimal(g, trace[j].frontier, trace[j].pick) &&
    trace[j].frontier[trace[j].pick] == dequeued[j] &&
    trace[j].queuedBefore <= |enqueued| &&
    multiset(trace[j].frontier) + multiset(dequeued[..j]) == multiset(enqueued[..trace[j].queuedBefore])
  }

  /** Every state queued after the initial one is a child of a state dequeued before it was queued. */
  ghost predicate ParentsOk(g: LetterBoxedGame, strategy: string, enqueued: seq<LetterBoxedState>, parent: seq<nat>,
                            dequeued: seq<LetterBoxedState>, trace: seq<Dequeue>)
  {
    |parent| == |enqueued| && |trace| == |dequeued| &&
    forall i | 0 < i < |enqueued| :: ParentOk(g, strategy, enqueued, parent, dequeued, trace, i)
  }

  ghost predicate ParentOk(g: LetterBoxedGame, strategy: string, enqueued: seq<LetterBoxedState>, parent: seq<nat>,
                           dequeued: seq<LetterBoxedState>, trace: seq<Dequeue>, i: nat)
  {
    i < |enqueued| && i < |parent| && parent[i] < |dequeued| && parent[i] < |trace| &&
    trace[parent[i]].queuedBefore <= i && ChildOf(g, strategy, dequeued[parent[i]], enqueued[i])
  }

  /**
   * When the `j`-th `queue.get()` happened, the states queued so far were the
   * initial state and exactly the children of the dequeues before `j`.
   */
  ghost predicate PinnedOk(enqueued: seq<LetterBoxedState>, parent: seq<nat>, trace: seq<Dequeue>) {
    |parent| == |enqueued| && forall j | 0 <= j < |trace| :: Pinned(enqueued, parent, trace, j)
  }

  ghost predicate Pinned(enqueued: seq<LetterBoxedState>, parent: seq<nat>, trace: seq<Dequeue>, j: nat) {
    j < |trace| && |parent| == |enqueued| && 1 <= trace[j].queuedBefore &&
    forall i | 0 < i < |enqueued| :: i < trace[j].queuedBefore <==> parent[i] < j
  }

  lemma PinDequeue(enqueued: seq<LetterBoxedState>, parent: seq<nat>, trace: seq<Dequeue>, step: Dequeue)
    requires PinnedOk(enqueued, parent, trace) && |enqueued| > 0 && step.queuedBefore == |enqueued|
    requires forall i | 0 < i < |enqueued| :: parent[i] < |trace|
    ensures PinnedOk(enqueued, parent, trace + [step])
  {
    var t := trace + [step];
    forall j | 0 <= j < |t| ensures Pinned(enqueued, parent, t, j) {
      if j < |trace| {
        assert Pinned(enqueued, parent, trace, j);
        assert t[j] == trace[j];
      }
    }
  }

  lemma PinEnqueue(enqueued: seq<LetterBoxedState>, parent: seq<nat>, trace: seq<Dequeue>, y: LetterBoxedState)
    requires PinnedOk(enqueued, parent, trace) && |trace| > 0
    requires forall j | 0 <= j < |trace| :: trace[j].queuedBefore <= |enqueued|
    ensures PinnedOk(enqueued + [y], parent + [|trace| - 1], trace)
  {
    var e, p := enqueued + [y], parent + [|trace| - 1];
    forall j | 0 <= j < |trace| ensures Pinned(e, p, trace, j) {
      assert Pinned(enqueued, parent, trace, j);
      forall i | 0 < i < |e| ensures i < trace[j].queuedBefore <==> p[i] < j {
        if i < |enqueued| {
          assert p[i] == parent[i];
        }
      }
    }
  }

  lemma RemoveAt(xs: seq<LetterBoxedState>, k: nat)
    requires k < |xs|
    ensures multiset(xs) == multiset(xs[..k] + xs[k + 1..]) + multiset{xs[k]}
    ensures forall x | x in xs[..k] + xs[k + 1..] :: x in xs
  {
    assert xs == xs[..k] + [xs[k]] + xs[k + 1..];
  }

  lemma TraceDequeue(g: LetterBoxedGame, enqueued: seq<LetterBoxedState>, dequeued: seq<LetterBoxedState>, trace: seq<Dequeue>,
                     frontier: seq<LetterBoxedState>, k: nat)
    requires TraceOk(g, enqueued, dequeued, trace) && IsMinimal(g, frontier, k)
    requires multiset(frontier) + multiset(dequeued) == multiset(enqueued)
    ensures TraceOk(g, enqueued, dequeued + [frontier[k]], trace + [Dequeue(frontier, k, |enqueued|)])
  {
    var d := dequeued + [frontier[k]];
    var t := trace + [Dequeue(frontier, k, |enqueued|)];
    forall j | 0 <= j < |t| ensures StepOk(g, enqueued, d, t, j) {
      if j < |trace| {
        assert StepOk(g, enqueued, dequeued, trace, j);
        assert d[..j] == dequeued[..j] && t[j] == trace[j];
      } else {
        assert d[..j] == dequeued;
        assert enqueued[..|enqueued|] == enqueued;
      }
    }
  }

  lemma TraceEnqueue(g: LetterBoxedGame, enqueued: seq<LetterBoxedState>, dequeued: seq<LetterBoxedState>, trace: seq<Dequeue>,
                     y: LetterBoxedState)
    requires TraceOk(g, enqueued, dequeued, trace)
    ensures TraceOk(g, enqueued + [y], dequeued, trace)
  {
    forall j | 0 <= j < |trace| ensures StepOk(g, enqueued + [y], dequeued, trace, j) {
      assert StepOk(g, enqueued, dequeued, trace, j);
      assert (enqueued + [y])[..trace[j].queuedBefore] == enqueued[..trace[j].queuedBefore];
    }
  }

  lemma ParentsDequeue(g: LetterBoxedGame, strategy: string, enqueued: seq<LetterBoxedState>, parent: seq<nat>,
                       dequeued: seq<LetterBoxedState>, trace: seq<Dequeue>, x: LetterBoxedState, step: Dequeue)
    requires ParentsOk(g, strategy, enqueued, parent, dequeued, trace)
    ensures ParentsOk(g, strategy, enqueued, parent, dequeued + [x], trace + [step])
  {
    forall i | 0 < i < |enqueued| ensures ParentOk(g, strategy, enqueued, parent, dequeued + [x], trace + [step], i) {
      assert ParentOk(g, strategy, enqueued, parent, dequeued, trace, i);
    }
  }

  lemma ParentsEnqueue(g: LetterBoxedGame, strategy: string, enqueued: seq<LetterBoxedState>, parent: seq<nat>,
                       dequeued: seq<LetterBoxedState>, trace: seq<Dequeue>, y: LetterBoxedState)
    requires ParentsOk(g, strategy, enqueued, parent, dequeued, trace) && |dequeued| > 0
    requires trace[|dequeued| - 1].queuedBefore <= |enqueued| && ChildOf(g, strategy, Last(dequeued), y)
    ensures ParentsOk(g, strategy, enqueued + [y], parent + [|dequeued| - 1], dequeued, trace)
  {
    var e, p := enqueued + [y], parent + [|dequeued| - 1];
    forall i | 0 < i < |e| ensures ParentOk(g, strategy, e, p, dequeued, trace, i) {
      if i < |enqueued| {
        assert ParentOk(g, strategy, enqueued, parent, dequeued, trace, i);
      }
    }
  }

  /** What holds between steps of the search: queued states are legal, the queue is what was queued less what was taken. */
  ghost predicate Search(g: LetterBoxedGame, strategy: string, frontier: seq<LetterBoxedState>, seen: set<LetterBoxedState>,
                         enqueued: seq<LetterBoxedState>, parent: seq<nat>, dequeued: seq<LetterBoxedState>, trace: seq<Dequeue>)
    requires GameValid(g)
  {
    (forall x | x in frontier :: Queued(g, strategy, x)) &&
    (forall x | x in enqueued :: Queued(g, strategy, x)) &&
    |enqueued| > 0 && enqueued[0] == InitialState() &&
    multiset(frontier) + multiset(dequeued) == multiset(enqueued) &&
    TraceOk(g, enqueued, dequeued, trace) &&
    ParentsOk(g, strategy, enqueued, parent, dequeued, trace) &&
    PinnedOk(enqueued, parent, trace) &&
    (forall x | x in seen :: x in enqueued) &&
    (strategy == "letter" ==> Distinct(enqueued) && forall x :: x in seen <==> x in enqueued)
  }

  /** `queue.get()` of a least-priority state keeps the search invariant. */
  lemma DequeueStep(g: LetterBoxedGame, strategy: string, frontier: seq<LetterBoxedState>, seen: set<LetterBoxedState>,
                    enqueued: seq<LetterBoxedState>, parent: seq<nat>, dequeued: seq<LetterBoxedState>, trace: seq<Dequeue>, k: nat)
    requires GameValid(g) && Search(g, strategy, frontier, seen, enqueued, parent, dequeued, trace) && IsMinimal(g, frontier, k)
    ensures Search(g, strategy, frontier[..k] + frontier[k + 1..], seen, enqueued, parent,
                   dequeued + [frontier[k]], trace + [Dequeue(frontier, k, |enqueued|)])
  {
    RemoveAt(frontier, k);
    TraceDequeue(g, enqueued, dequeued, trace, frontier, k);
    ParentsDequeue(g, strategy, enqueued, parent, dequeued, trace, frontier[k], Dequeue(frontier, k, |enqueued|));
    assert forall i | 0 < i < |enqueued| :: parent[i] < |trace| by {
      forall i | 0 < i < |enqueued| ensures parent[i] < |trace| {
        assert ParentOk(g, strategy, enqueued, parent, dequeued, trace, i);
      }
    }
    PinDequeue(enqueued, parent, trace, Dequeue(frontier, k, |enqueued|));
  }

  /** `queue.put(next_state)` of an unseen child of the last dequeued state keeps the search invariant. */
  lemma EnqueueStep(g: LetterBoxedGame, strategy: string, frontier: seq<LetterBoxedState>, seen: set<LetterBoxedState>,
                    enqueued: seq<LetterBoxedState>, parent: seq<nat>, dequeued: seq<LetterBoxedState>, trace: seq<Dequeue>,
                    y: LetterBoxedState)
    requires GameValid(g) && Search(g, strategy, frontier, seen, enqueued, parent, dequeued, trace) && |dequeued| > 0
    requires Queued(g, strategy, y) && ChildOf(g, strategy, Last(dequeued), y) && y !in seen
    ensures Search(g, strategy, frontier + [y], if strategy == "letter" then seen + {y} else seen,
                   enqueued + [y], parent + [|dequeued| - 1], dequeued, trace)
  {
    QueuedSnoc(g, strategy, frontier, y);
    QueuedSnoc(g, strategy, enqueued, y);
    assert multiset(frontier + [y]) + multiset(dequeued) == multiset(enqueued + [y]);
    TraceEnqueue(g, enqueued, dequeued, trace, y);
    assert StepOk(g, enqueued, dequeued, trace, |dequeued| - 1);
    ParentsEnqueue(g, strategy, enqueued, parent, dequeued, trace, y);
    assert forall j | 0 <= j < |trace| :: trace[j].queuedBefore <= |enqueued| by {
      forall j | 0 <= j < |trace| ensures trace[j].queuedBefore <= |enqueued| {
        assert StepOk(g, enqueued, dequeued, trace, j);
      }
    }
    PinEnqueue(enqueued, parent, trace, y);
    SeenSnoc(seen, enqueued, y, strategy == "letter");
  }

  lemma QueuedSnoc(g: LetterBoxedGame, strategy: string, xs: seq<LetterBoxedState>, y: LetterBoxedState)
    requires GameValid(g) && (forall x | x in xs :: Queued(g, strategy, x)) && Queued(g, strategy, y)
    ensures forall x | x in xs + [y] :: Queued(g, strategy, x)
  {
    forall x | x in xs + [y] ensures Queued(g, strategy, x) {
      assert x in xs || x == y;
    }
  }

  /** Queuing an unseen state, and marking it seen when `letter`, keeps `seen` within the queued states (equal to them when `letter`). */
  lemma SeenSnoc(seen: set<LetterBoxedState>, enqueued: seq<LetterBoxedState>, y: LetterBoxedState, letter: bool)
    requires (forall x | x in seen :: x in enqueued) && y !in seen
    requires letter ==> Distinct(enqueued) && forall x :: x in seen <==> x in enqueued
    ensures forall x | x in (if letter then seen + {y} else seen) :: x in enqueued + [y]
    ensures letter ==> Distinct(enqueued + [y]) && forall x :: x in seen + {y} <==> x in enqueued + [y]
  {
    if letter {
      assert y !in enqueued;
      assert multiset(enqueued + [y]) == multiset(enqueued) + multiset{y};
    }
  }

  /** The `seen` set after the loop over `children`: under `'letter'` every child joins it, otherwise it is left alone. */
  function SeenAfter(children: seq<LetterBoxedState>, seen: set<LetterBoxedState>, letter: bool): set<LetterBoxedState>
    decreases |children|
  {
    if children == [] || !letter then seen
    else SeenAfter(children[..|children| - 1], seen, letter) + {Last(children)}
  }

  /** The loop over the children only ever adds to `seen`. */
  lemma SeenAfterGrows(children: seq<LetterBoxedState>, seen: set<LetterBoxedState>, letter: bool)
    ensures seen <= SeenAfter(children, seen, letter)
  {
    SeenAfterIs(children, seen, letter);
  }

  /**
   * The children the loop over `children` hands to `queue.put`, in order:
   * each one not in `seen`, where under `'letter'` every child joins `seen`
   * as the loop passes it.
   */
  function Unseen(children: seq<LetterBoxedState>, seen: set<LetterBoxedState>, letter: bool): seq<LetterBoxedState>
    decreases |children|
  {
    if children == [] then []
    else
      var pre := children[..|children| - 1];
      var c := Last(children);
      Unseen(pre, seen, letter) + (if c in SeenAfter(pre, seen, letter) then [] else [c])
  }

  /** Under `'letter'` `seen` gains exactly the children; otherwise it is unchanged. */
  lemma {:induction false} SeenAfterIs(children: seq<LetterBoxedState>, seen: set<LetterBoxedState>, letter: bool)
    ensures forall x :: x in SeenAfter(children, seen, letter) <==> x in seen || (letter && x in children)
    decreases |children|
  {
    if children != [] && letter {
      SeenAfterIs(children[..|children| - 1], seen, letter);
      assert children == children[..|children| - 1] + [Last(children)];
    }
  }

  /** The queued children are unseen children, no more of them than there are children. */
  lemma {:induction false} UnseenWithin(children: seq<LetterBoxedState>, seen: set<LetterBoxedState>, letter: bool)
    ensures |Unseen(children, seen, letter)| <= |children|
    ensures forall x | x in Unseen(children, seen, letter) :: x in children && x !in seen
    decreases |children|
  {
    if children != [] {
      var pre, c := children[..|children| - 1], Last(children);
      UnseenWithin(pre, seen, letter);
      assert children == pre + [c];
      var u := Unseen(pre, seen, letter);
      var tail := if c in SeenAfter(pre, seen, letter) then [] else [c];
      assert Unseen(children, seen, letter) == u + tail;
      if tail != [] {
        SeenAfterIs(pre, seen, letter);
      }
    }
  }

  /** Every child is either seen already or queued. */
  lemma {:induction false} UnseenCovers(children: seq<LetterBoxedState>, seen: set<LetterBoxedState>, letter: bool)
    ensures forall c | c in children :: c in seen || c in Unseen(children, seen, letter)
    decreases |children|
  {
    if children != [] {
      var pre := children[..|children| - 1];
      UnseenCovers(pre, seen, letter);
      SeenAfterIs(pre, seen, letter);
      assert children == pre + [Last(children)];
    }
  }

  /** Under `'word'` `seen` does not grow, so each unseen child is queued as often as it occurs. */
  lemma {:induction false} UnseenCounts(children: seq<LetterBoxedState>, seen: set<LetterBoxedState>)
    ensures forall c | c !in seen :: multiset(Unseen(children, seen, false))[c] == multiset(children)[c]
    decreases |children|
  {
    if children != [] {
      var pre, c := children[..|children| - 1], Last(children);
      UnseenCounts(pre, seen);
      assert children == pre + [c];
      var u := Unseen(pre, seen, false);
      var tail := if c in seen then [] else [c];
      assert Unseen(children, seen, false) == u + tail;
      assert multiset(u + tail) == multiset(u) + multiset(tail);
      assert multiset(children) == multiset(pre) + multiset{c};
    }
  }

  /** Word children are distinct, so under `'word'` each unseen child is queued exactly once. */
  lemma UnseenOnce(children: seq<LetterBoxedState>, seen: set<LetterBoxedState>)
    requires Distinct(children)
    ensures forall c | c in children && c !in seen :: multiset(Unseen(children, seen, false))[c] == 1
  {
    UnseenCounts(children, seen);
    forall c | c in children && c !in seen ensures multiset(Unseen(children, seen, false))[c] == 1 {
      assert c in multiset(children);
    }
  }

  /** Under `'letter'` a queued child joins `seen`, so none is queued twice. */
  lemma {:induction false} UnseenDistinct(children: seq<LetterBoxedState>, seen: set<LetterBoxedState>)
    ensures Distinct(Unseen(children, seen, true))
    decreases |children|
  {
    if children != [] {
      var pre, c := children[..|children| - 1], Last(children);
      UnseenDistinct(pre, seen);
      UnseenWithin(pre, seen, true);
      SeenAfterIs(pre, seen, true);
      var u := Unseen(pre, seen, true);
      if c !in SeenAfter(pre, seen, true) {
        assert c !in u;
        assert Unseen(children, seen, true) == u + [c];
        assert multiset(u + [c]) == multiset(u) + multiset{c};
      }
    }
  }

  /** The loop over `children[..i + 1]` is the loop over `children[..i]` followed by one more test of `children[i]`. */
  lemma UnseenSnoc(children: seq<LetterBoxedState>, i: nat, seen: set<LetterBoxedState>, letter: bool)
    requires i < |children|
    ensures Unseen(children[..i + 1], seen, letter) ==
            Unseen(children[..i], seen, letter) + (if children[i] in SeenAfter(children[..i], seen, letter) then [] else [children[i]])
    ensures SeenAfter(children[..i + 1], seen, letter) ==
            if letter && children[i] !in SeenAfter(children[..i], seen, letter)
            then SeenAfter(children[..i], seen, letter) + {children[i]}
            else SeenAfter(children[..i], seen, letter)
  {
    assert children[..i + 1][..i] == children[..i];
    assert children[..i + 1] == children[..i] + [children[i]];
  }

  /** Appending to `x` what is appended to `u` keeps `u` the part of `x` past `base`. */
  lemma AppendStep<T>(base: seq<T>, u: seq<T>, x: seq<T>, y: T, added: bool, u': seq<T>, x': seq<T>)
    requires base <= x && x[|base|..] == u
    requires u' == u + (if added then [y] else [])
    requires x' == if added then x + [y] else x
    ensures base <= x' && x'[|base|..] == u'
  {
    if added {
      assert x'[|base|..] == x[|base|..] + [y];
    } else {
      assert u + [] == u;
    }
  }

  /** Appending `v` to `p` keeps every entry of `p` past `base` equal to `v`. */
  lemma ConstSnoc(base: seq<nat>, p: seq<nat>, v: nat, added: bool, p': seq<nat>)
    requires base <= p && forall t | |base| <= t < |p| :: p[t] == v
    requires p' == if added then p + [v] else p
    ensures base <= p' && forall t | |base| <= t < |p'| :: p'[t] == v
  {
  }

  /** What holds after the loop over `get_child_states(state)` has passed `children[..i]`. */
  ghost predicate Enqueued(g: LetterBoxedGame, strategy: string, children: seq<LetterBoxedState>, i: nat,
                           frontier: seq<LetterBoxedState>, seen: set<LetterBoxedState>,
                           enqueued: seq<LetterBoxedState>, parent: seq<nat>,
                           dequeued: seq<LetterBoxedState>, trace: seq<Dequeue>,
                           frontier': seq<LetterBoxedState>, seen': set<LetterBoxedState>,
                           enqueued': seq<LetterBoxedState>, parent': seq<nat>)
    requires GameValid(g)
  {
    i <= |children| &&
    Search(g, strategy, frontier', seen', enqueued', parent', dequeued, trace) &&
    frontier <= frontier' && frontier'[|frontier|..] == Unseen(children[..i], seen, strategy == "letter") &&
    seen' == SeenAfter(children[..i], seen, strategy == "letter") &&
    enqueued <= enqueued' && enqueued'[|enqueued|..] == Unseen(children[..i], seen, strategy == "letter") &&
    parent <= parent' && forall t | |parent| <= t < |parent'| :: parent'[t] == |dequeued| - 1
  }

  lemma EnqueuedStart(g: LetterBoxedGame, strategy: string, children: seq<LetterBoxedState>,
                      frontier: seq<LetterBoxedState>, seen: set<LetterBoxedState>,
                      enqueued: seq<LetterBoxedState>, parent: seq<nat>,
                      dequeued: seq<LetterBoxedState>, trace: seq<Dequeue>)
    requires GameValid(g) && Search(g, strategy, frontier, seen, enqueued, parent, dequeued, trace)
    ensures Enqueued(g, strategy, children, 0, frontier, seen, enqueued, parent, dequeued, trace, frontier, seen, enqueued, parent)
  {
    assert children[..0] == [];
    assert frontier[|frontier|..] == [] && enqueued[|enqueued|..] == [];
  }

  lemma EnqueuedEnd(g: LetterBoxedGame, strategy: string, children: seq<LetterBoxedState>,
                    frontier: seq<LetterBoxedState>, seen: set<LetterBoxedState>,
                    enqueued: seq<LetterBoxedState>, parent: seq<nat>,
                    dequeued: seq<LetterBoxedState>, trace: seq<Dequeue>,
                    frontier': seq<LetterBoxedState>, seen': set<LetterBoxedState>,
                    enqueued': seq<LetterBoxedState>, parent': seq<nat>)
    requires GameValid(g) && Search(g, strategy, frontier, seen, enqueued, parent, dequeued, trace)
    requires Enqueued(g, strategy, children, |children|, frontier, seen, enqueued, parent, dequeued, trace, frontier', seen', enqueued', parent')
    ensures Search(g, strategy, frontier', seen', enqueued', parent', dequeued, trace)
    ensures frontier <= frontier' && frontier'[|frontier|..] == Unseen(children, seen, strategy == "letter")
    ensures seen' == SeenAfter(children, seen, strategy == "letter")
    ensures enqueued <= enqueued' && enqueued'[|enqueued|..] == Unseen(children, seen, strategy == "letter")
    ensures parent <= parent' && forall t | |parent| <= t < |parent'| :: parent'[t] == |dequeued| - 1
    ensures forall c | c in children :: c in enqueued'
  {
    assert children[..|children|] == children;
    UnseenCovers(children, seen, strategy == "letter");
    forall c | c in children ensures c in enqueued' {
      if c in seen {
        assert c in enqueued;
      }
    }
  }

  /** One pass of the loop body: `if next_state not in seen: queue.put(next_state)`, and under `'letter'` `seen.add(next_state)`. */
  method EnqueueChild(g: LetterBoxedGame, strategy: string, children: seq<LetterBoxedState>, i: nat,
                      ghost frontier: seq<LetterBoxedState>, ghost seen: set<LetterBoxedState>,
                      ghost enqueued: seq<LetterBoxedState>, ghost parent: seq<nat>,
                      ghost dequeued: seq<LetterBoxedState>, ghost trace: seq<Dequeue>,
                      frontier': seq<LetterBoxedState>, seen': set<LetterBoxedState>,
                      ghost enqueued': seq<LetterBoxedState>, ghost parent': seq<nat>)
    returns (frontier'': seq<LetterBoxedState>, seen'': set<LetterBoxedState>,
             ghost enqueued'': seq<LetterBoxedState>, ghost parent'': seq<nat>)
    requires GameValid(g) && i < |children| && |dequeued| > 0
    requires forall c | c in children :: Queued(g, strategy, c) && ChildOf(g, strategy, Last(dequeued), c)
    requires Enqueued(g, strategy, children, i, frontier, seen, enqueued, parent, dequeued, trace, frontier', seen', enqueued', parent')
    ensures Enqueued(g, strategy, children, i + 1, frontier, seen, enqueued, parent, dequeued, trace, frontier'', seen'', enqueued'', parent'')
    ensures frontier'' == if children[i] in seen' then frontier' else frontier' + [children[i]]
    ensures seen'' == if strategy == "letter" then seen' + {children[i]} else seen'
  {
    var nextState := children[i];
    if nextState !in seen' {
      EnqueuedAdd(g, strategy, children, i, frontier, seen, enqueued, parent, dequeued, trace, frontier', seen', enqueued', parent');
      frontier'' := frontier' + [nextState];
      enqueued'' := enqueued' + [nextState];
      parent'' := parent' + [|dequeued| - 1];
      seen'' := seen';
      if strategy == "letter" {
        seen'' := seen' + {nextState};
      }
    } else {
      EnqueuedSkip(g, strategy, children, i, frontier, seen, enqueued, parent, dequeued, trace, frontier', seen', enqueued', parent');
      frontier'', seen'', enqueued'', parent'' := frontier', seen', enqueued', parent';
    }
  }

  /** The loop body's step for an unseen child: it is queued, and marked seen under `'letter'`. */
  lemma EnqueuedAdd(g: LetterBoxedGame, strategy: string, children: seq<LetterBoxedState>, i: nat,
                    frontier: seq<LetterBoxedState>, seen: set<LetterBoxedState>,
                    enqueued: seq<LetterBoxedState>, parent: seq<nat>,
                    dequeued: seq<LetterBoxedState>, trace: seq<Dequeue>,
                    frontier': seq<LetterBoxedState>, seen': set<LetterBoxedState>,
                    enqueued': seq<LetterBoxedState>, parent': seq<nat>)
    requires GameValid(g) && i < |children| && |dequeued| > 0 && children[i] !in seen'
    requires forall c | c in children :: Queued(g, strategy, c) && ChildOf(g, strategy, Last(dequeued), c)
    requires Enqueued(g, strategy, children, i, frontier, seen, enqueued, parent, dequeued, trace, frontier', seen', enqueued', parent')
    ensures Enqueued(g, strategy, children, i + 1, frontier, seen, enqueued, parent, dequeued, trace,
                     frontier' + [children[i]], if strategy == "letter" then seen' + {children[i]} else seen',
                     enqueued' + [children[i]], parent' + [|dequeued| - 1])
  {
    var L, y := strategy == "letter", children[i];
    var u, u' := Unseen(children[..i], seen, L), Unseen(children[..i + 1], seen, L);
    UnseenSnoc(children, i, seen, L);
    AppendStep(frontier, u, frontier', y, true, u', frontier' + [y]);
    AppendStep(enqueued, u, enqueued', y, true, u', enqueued' + [y]);
    ConstSnoc(parent, parent', |dequeued| - 1, true, parent' + [|dequeued| - 1]);
    assert Queued(g, strategy, y) && ChildOf(g, strategy, Last(dequeued), y) by {
      assert y in children;
    }
    EnqueueStep(g, strategy, frontier', seen', enqueued', parent', dequeued, trace, y);
  }

  /** The loop body's step for a seen child: nothing changes. */
  lemma EnqueuedSkip(g: LetterBoxedGame, strategy: string, children: seq<LetterBoxedState>, i: nat,
                     frontier: seq<LetterBoxedState>, seen: set<LetterBoxedState>,
                     enqueued: seq<LetterBoxedState>, parent: seq<nat>,
                     dequeued: seq<LetterBoxedState>, trace: seq<Dequeue>,
                     frontier': seq<LetterBoxedState>, seen': set<LetterBoxedState>,
                     enqueued': seq<LetterBoxedState>, parent': seq<nat>)
    requires GameValid(g) && i < |children| && children[i] in seen'
    requires Enqueued(g, strategy, children, i, frontier, seen, enqueued, parent, dequeued, trace, frontier', seen', enqueued', parent')
    ensures Enqueued(g, strategy, children, i + 1, frontier, seen, enqueued, parent, dequeued, trace, frontier', seen', enqueued', parent')
  {
    var L, y := strategy == "letter", children[i];
    var u, u' := Unseen(children[..i], seen, L), Unseen(children[..i + 1], seen, L);
    UnseenSnoc(children, i, seen, L);
    AppendStep(frontier, u, frontier', y, false, u', frontier');
    AppendStep(enqueued, u, enqueued', y, false, u', enqueued');
  }

  /** The loop over `get_child_states(state)`: queue each child not yet seen, marking it seen under `'letter'`. */
  method EnqueueChildren(g: LetterBoxedGame, strategy: string, children: seq<LetterBoxedState>,
                         frontier: seq<LetterBoxedState>, seen: set<LetterBoxedState>,
                         ghost enqueued: seq<LetterBoxedState>, ghost parent: seq<nat>,
                         ghost dequeued: seq<LetterBoxedState>, ghost trace: seq<Dequeue>)
    returns (frontier': seq<LetterBoxedState>, seen': set<LetterBoxedState>,
             ghost enqueued': seq<LetterBoxedState>, ghost parent': seq<nat>)
    requires GameValid(g) && Search(g, strategy, frontier, seen, enqueued, parent, dequeued, trace) && |dequeued| > 0
    requires forall c | c in children :: Queued(g, strategy, c) && ChildOf(g, strategy, Last(dequeued), c)
    ensures Search(g, strategy, frontier', seen', enqueued', parent', dequeued, trace)
    ensures frontier <= frontier' && frontier'[|frontier|..] == Unseen(children, seen, strategy == "letter")
    ensures seen' == SeenAfter(children, seen, strategy == "letter")
    ensures enqueued <= enqueued' && enqueued'[|enqueued|..] == Unseen(children, seen, strategy == "letter")
    ensures parent <= parent' && forall t | |parent| <= t < |parent'| :: parent'[t] == |dequeued| - 1
    ensures forall c | c in children :: c in enqueued'
  {
    frontier', seen', enqueued', parent' := frontier, seen, enqueued, parent;
    var i := 0;
    EnqueuedStart(g, strategy, children, frontier, seen, enqueued, parent, dequeued, trace);
    while i < |children|
      invariant Enqueued(g, strategy, children, i, frontier, seen, enqueued, parent, dequeued, trace, frontier', seen', enqueued', parent')
    {
      frontier', seen', enqueued', parent' :=
        EnqueueChild(g, strategy, children, i, frontier, seen, enqueued, parent, dequeued, trace, frontier', seen', enqueued', parent');
      i := i + 1;
    }
    EnqueuedEnd(g, strategy, children, frontier, seen, enqueued, parent, dequeued, trace, frontier', seen', enqueued', parent');
  }

  /** Every child of every dequeued state has been queued. */
  ghost predicate Closed(g: LetterBoxedGame, strategy: string, dequeued: seq<LetterBoxedState>, enqueued: seq<LetterBoxedState>) {
    forall j, c | 0 <= j < |dequeued| && ChildOf(g, strategy, dequeued[j], c) :: c in enqueued
  }

  /** After the children of a newly dequeued state are queued, every child of every dequeued state is queued. */
  lemma ClosureStep(g: LetterBoxedGame, strategy: string, before: seq<LetterBoxedState>, after: seq<LetterBoxedState>,
                    dequeued: seq<LetterBoxedState>, state: LetterBoxedState, children: seq<LetterBoxedState>)
    requires Closed(g, strategy, dequeued, before) && before <= after
    requires forall c :: c in children <==> ChildOf(g, strategy, state, c)
    requires forall c | c in children :: c in after
    ensures Closed(g, strategy, dequeued + [state], after)
  {
    var d := dequeued + [state];
    forall j, c | 0 <= j < |d| && ChildOf(g, strategy, d[j], c) ensures c in after {
      if j < |dequeued| {
        assert ChildOf(g, strategy, dequeued[j], c);
        assert c in before;
      } else {
        assert c in children;
      }
    }
  }

  /** One pass of the `while` body: take a least-priority state, yield it if final, queue its unseen children. */
  method SearchStep(g: LetterBoxedGame, strategy: string, frontier: seq<LetterBoxedState>, seen: set<LetterBoxedState>,
                    solutions: seq<LetterBoxedState>, ghost enqueued: seq<LetterBoxedState>, ghost parent: seq<nat>,
                    ghost dequeued: seq<LetterBoxedState>, ghost trace: seq<Dequeue>)
    returns (frontier': seq<LetterBoxedState>, seen': set<LetterBoxedState>, solutions': seq<LetterBoxedState>,
             ghost enqueued': seq<LetterBoxedState>, ghost parent': seq<nat>,
             ghost dequeued': seq<LetterBoxedState>, ghost trace': seq<Dequeue>,
             k: nat, children: seq<LetterBoxedState>)
    requires GameValid(g) && frontier != []
    requires strategy != "letter" ==> forall w | w in g.dictionary.wordSet :: |w| > 0
    requires Search(g, strategy, frontier, seen, enqueued, parent, dequeued, trace)
    requires Closed(g, strategy, dequeued, enqueued)
    requires solutions == Finals(g, dequeued) && forall x | x in solutions :: IsFinalState(g, x) && Inv(g, x)
    ensures Search(g, strategy, frontier', seen', enqueued', parent', dequeued', trace')
    ensures Closed(g, strategy, dequeued', enqueued')
    ensures solutions' == Finals(g, dequeued') && forall x | x in solutions' :: IsFinalState(g, x) && Inv(g, x)
    // the state taken, and the record of taking it
    ensures IsMinimal(g, frontier, k) && Queued(g, strategy, frontier[k])
    ensures dequeued' == dequeued + [frontier[k]] && trace' == trace + [Dequeue(frontier, k, |enqueued|)]
    ensures solutions' == solutions + (if IsFinalState(g, frontier[k]) then [frontier[k]] else [])
    // its children, in the order `get_child_states` returned them
    ensures forall c :: c in children <==> ChildOf(g, strategy, frontier[k], c)
    ensures strategy == "letter" ==> multiset(children) == multiset(LetterChildren(g, frontier[k]))
    ensures strategy != "letter" ==> Distinct(children)
    // the queue less the state taken, then its unseen children
    ensures frontier[..k] + frontier[k + 1..] <= frontier'
    ensures frontier'[|frontier| - 1..] == Unseen(children, seen, strategy == "letter")
    ensures seen' == SeenAfter(children, seen, strategy == "letter") && seen <= seen'
    ensures enqueued <= enqueued' && enqueued'[|enqueued|..] == Unseen(children, seen, strategy == "letter")
    ensures parent <= parent' && forall t | |parent| <= t < |parent'| :: parent'[t] == |dequeued|
  {
    k := ExtractMin(g, frontier);
    var state := frontier[k];
    assert Queued(g, strategy, state);
    DequeueStep(g, strategy, frontier, seen, enqueued, parent, dequeued, trace, k);
    FinalsSnoc(g, dequeued, state);
    trace' := trace + [Dequeue(frontier, k, |enqueued|)];
    dequeued' := dequeued + [state];
    var rest := frontier[..k] + frontier[k + 1..];
    assert |rest| == |frontier| - 1;
    solutions' := solutions;
    if IsFinalState(g, state) {
      solutions' := solutions + [state];
    }
    children := ChildStates(g, strategy, state);
    frontier', seen', enqueued', parent' := EnqueueChildren(g, strategy, children, rest, seen, enqueued, parent, dequeued', trace');
    ClosureStep(g, strategy, enqueued, enqueued', dequeued, state, children);
    SeenAfterGrows(children, seen, strategy == "letter");
  }

  /** What the search record says once the loop stops. */
  lemma SearchEnd(g: LetterBoxedGame, strategy: string, frontier: seq<LetterBoxedState>, seen: set<LetterBoxedState>,
                  enqueued: seq<LetterBoxedState>, parent: seq<nat>, dequeued: seq<LetterBoxedState>, trace: seq<Dequeue>)
    requires GameValid(g) && Search(g, strategy, frontier, seen, enqueued, parent, dequeued, trace)
    ensures forall x | x in enqueued :: Inv(g, x)
    ensures |enqueued| > 0 && enqueued[0] == InitialState()
    ensures multiset(dequeued) <= multiset(enqueued)
    ensures frontier == [] ==> multiset(dequeued) == multiset(enqueued)
    ensures TraceOk(g, enqueued, dequeued, trace)
    ensures ParentsOk(g, strategy, enqueued, parent, dequeued, trace)
    ensures PinnedOk(enqueued, parent, trace)
    ensures strategy == "letter" ==> Distinct(enqueued)
  {
  }

  /**
   * `solve(strategy)`, run for at most `fuel` dequeues. The ghost outputs
   * record the search: `enqueued` every `queue.put` in order (the initial
   * state first), `parent[i]` the dequeue whose children produced
   * `enqueued[i]`, and `dequeued` with `trace` every `queue.get` in order.
   * The solutions are exactly the final dequeued states; every dequeued state
   * had least priority in the queue of its moment, and that queue held the
   * initial state and exactly the children of the earlier dequeues, less the
   * states already taken; every child of a dequeued
   * state was queued (or seen before); the search stops early only once the
   * queue is empty; under `'letter'` no state is queued twice.
   */
  method Solve(g: LetterBoxedGame, strategy: string, fuel: nat)
    returns (solutions: seq<LetterBoxedState>, ghost enqueued: seq<LetterBoxedState>, ghost parent: seq<nat>,
             ghost dequeued: seq<LetterBoxedState>, ghost trace: seq<Dequeue>)
    requires GameValid(g)
    requires strategy != "letter" ==> forall w | w in g.dictionary.wordSet :: |w| > 0
    ensures solutions == Finals(g, dequeued)
    ensures forall x | x in solutions :: IsFinalState(g, x) && Inv(g, x)
    ensures forall x | x in enqueued :: Inv(g, x)
    ensures |enqueued| > 0 && enqueued[0] == InitialState()
    ensures |dequeued| <= fuel && (fuel > 0 ==> |dequeued| > 0 && dequeued[0] == InitialState())
    ensures multiset(dequeued) <= multiset(enqueued)
    ensures |dequeued| < fuel ==> multiset(dequeued) == multiset(enqueued)
    ensures TraceOk(g, enqueued, dequeued, trace)
    ensures ParentsOk(g, strategy, enqueued, parent, dequeued, trace)
    ensures PinnedOk(enqueued, parent, trace)
    ensures forall j, c | 0 <= j < |dequeued| && ChildOf(g, strategy, dequeued[j], c) :: c in enqueued
    ensures strategy == "letter" ==> Distinct(enqueued)
  {
    InitialStateInv(g);
    InvFinishSafe(g, InitialState());
    var frontier := [InitialState()];
    var seen := {InitialState()};
    solutions := [];
    enqueued := [InitialState()];
    parent := [0];
    dequeued := [];
    trace := [];
    var left := fuel;
    while frontier != [] && left > 0
      invariant Search(g, strategy, frontier, seen, enqueued, parent, dequeued, trace)
      invariant Closed(g, strategy, dequeued, enqueued)
      invariant solutions == Finals(g, dequeued) && forall x | x in solutions :: IsFinalState(g, x) && Inv(g, x)
      invariant |dequeued| + left == fuel
      invariant |dequeued| == 0 ==> frontier == [InitialState()]
      invariant |dequeued| > 0 ==> dequeued[0] == InitialState()
      decreases left
    {
      ghost var before, queue := dequeued, frontier;
      var k, children;
      frontier, seen, solutions, enqueued, parent, dequeued, trace, k, children :=
        SearchStep(g, strategy, frontier, seen, solutions, enqueued, parent, dequeued, trace);
      assert dequeued[0] == InitialState() by {
        if |before| > 0 {
          assert dequeued[0] == before[0];
        } else {
          assert queue == [InitialState()] && k == 0;
        }
      }
      left := left - 1;
    }
    SearchEnd(g, strategy, frontier, seen, enqueued, parent, dequeued, trace);
  }
}
