/** Level-order search, for any kind of node: the levels of a tree are produced one from the
    other by a `next` function, and the search stops at the first node, level by level and in
    order within a level, that satisfies `stop`. `findNestedProperty` is this search over the
    objects of a component-state tree. */
module LevelOrder {
  import opened Options

  /** The position of the first node at or after `i` that satisfies `stop`, or `|level|` if
      there is none. */
  function FirstStop<T>(level: seq<T>, stop: T -> bool, i: nat): (h: nat)
    requires i <= |level|
    ensures i <= h <= |level|
    ensures h < |level| ==> stop(level[h])
    decreases |level| - i
  {
    if i == |level| then |level|
    else if stop(level[i]) then i
    else FirstStop(level, stop, i + 1)
  }

  /** The search over at most `n` levels, the first of which is `queue`: the first node that
      satisfies `stop` in the first level that has one. An empty level ends the search. */
  function Search<T>(queue: seq<T>, stop: T -> bool, next: seq<T> -> seq<T>, n: nat): (r: Option<T>)
    ensures r.Some? ==> stop(r.value)
    decreases n
  {
    if queue == [] || n == 0 then None
    else
      var h := FirstStop(queue, stop, 0);
      if h < |queue| then Some(queue[h]) else Search(next(queue), stop, next, n - 1)
  }

  /** A level with a stopping node ends the search there. */
  lemma SearchStops<T>(queue: seq<T>, stop: T -> bool, next: seq<T> -> seq<T>, n: nat)
    requires n > 0 && FirstStop(queue, stop, 0) < |queue|
    ensures Search(queue, stop, next, n) == Some(queue[FirstStop(queue, stop, 0)])
  {
  }

  /** A non-empty level without one hands the search on to the level after it. */
  lemma SearchPasses<T>(queue: seq<T>, stop: T -> bool, next: seq<T> -> seq<T>, n: nat)
    requires queue != [] && n > 0 && FirstStop(queue, stop, 0) == |queue|
    ensures Search(queue, stop, next, n) == Search(next(queue), stop, next, n - 1)
  {
  }

  /** Level `l` below the level `root`. */
  function LevelAt<T>(root: seq<T>, next: seq<T> -> seq<T>, l: nat): seq<T>
  {
    if l == 0 then root else next(LevelAt(root, next, l - 1))
  }

  /** The same search, stated level by level: from level `l` below `root`, at most `n` levels. */
  function SearchFrom<T>(root: seq<T>, stop: T -> bool, next: seq<T> -> seq<T>, l: nat, n: nat): Option<T>
    decreases n
  {
    if n == 0 then None
    else
      var level := LevelAt(root, next, l);
      var h := FirstStop(level, stop, 0);
      if h < |level| then Some(level[h]) else SearchFrom(root, stop, next, l + 1, n - 1)
  }

  /** No node of `nodes` satisfies `stop`. */
  ghost predicate NoStopAt<T>(nodes: seq<T>, stop: T -> bool)
  {
    forall j :: 0 <= j < |nodes| ==> !stop(nodes[j])
  }

  /** No node of `nodes` before position `i` satisfies `stop`. */
  ghost predicate NoStopBefore<T>(nodes: seq<T>, stop: T -> bool, i: int)
  {
    forall j :: 0 <= j < i && j < |nodes| ==> !stop(nodes[j])
  }

  /** No node of level `m` satisfies `stop`. */
  ghost predicate NoStopOnLevel<T>(root: seq<T>, stop: T -> bool, next: seq<T> -> seq<T>, m: nat)
  {
    NoStopAt(LevelAt(root, next, m), stop)
  }

  /** No node of levels `from` to `to - 1` satisfies `stop`. */
  ghost predicate NoStopBetween<T>(root: seq<T>, stop: T -> bool, next: seq<T> -> seq<T>, from: nat, to: int)
  {
    forall m: nat :: from <= m < to ==> NoStopOnLevel(root, stop, next, m)
  }

  /** `FirstStop` from `i` finds the first node at or after `i` that satisfies `stop`. */
  lemma {:induction false} FirstStopAt<T>(level: seq<T>, stop: T -> bool, i: nat, k: nat)
    requires i <= k <= |level| && (k < |level| ==> stop(level[k]))
    requires forall j :: i <= j < k ==> !stop(level[j])
    ensures FirstStop(level, stop, i) == k
    decreases k - i
  {
    if i < k {
      FirstStopAt(level, stop, i + 1, k);
    }
  }

  /** A level without a stopping node hands the search on to the next level. */
  lemma PassOn<T>(root: seq<T>, stop: T -> bool, next: seq<T> -> seq<T>, l: nat, n: nat, t: int)
    requires n > 0 && l < t && NoStopBetween(root, stop, next, l, t)
    ensures SearchFrom(root, stop, next, l, n) == SearchFrom(root, stop, next, l + 1, n - 1)
    ensures NoStopBetween(root, stop, next, l + 1, t)
  {
    assert NoStopOnLevel(root, stop, next, l);
    FirstStopAt(LevelAt(root, next, l), stop, 0, |LevelAt(root, next, l)|);
  }

  /** A level whose node `i` is the first to satisfy `stop` decides the search. */
  lemma HitHere<T>(root: seq<T>, stop: T -> bool, next: seq<T> -> seq<T>, t: nat, n: nat, i: nat)
    requires n > 0 && i < |LevelAt(root, next, t)| && stop(LevelAt(root, next, t)[i])
    requires NoStopBefore(LevelAt(root, next, t), stop, i)
    ensures SearchFrom(root, stop, next, t, n) == Some(LevelAt(root, next, t)[i])
  {
    FirstStopAt(LevelAt(root, next, t), stop, 0, i);
  }

  /** A search from level `l` whose first stopping node is node `i` of level `t` returns that
      node, provided level `t` is among the `n` levels searched. */
  lemma {:induction false} Hit<T>(root: seq<T>, stop: T -> bool, next: seq<T> -> seq<T>, l: nat, n: nat, t: nat, i: nat)
    requires l <= t < l + n && NoStopBetween(root, stop, next, l, t)
    requires i < |LevelAt(root, next, t)| && stop(LevelAt(root, next, t)[i])
    requires NoStopBefore(LevelAt(root, next, t), stop, i)
    ensures SearchFrom(root, stop, next, l, n) == Some(LevelAt(root, next, t)[i])
    decreases t - l
  {
    if l < t {
      PassOn(root, stop, next, l, n, t);
      Hit(root, stop, next, l + 1, n - 1, t, i);
    } else {
      HitHere(root, stop, next, t, n, i);
    }
  }

  /** A search over `n` levels none of which has a stopping node finds nothing. */
  lemma {:induction false} Miss<T>(root: seq<T>, stop: T -> bool, next: seq<T> -> seq<T>, l: nat, n: nat)
    requires NoStopBetween(root, stop, next, l, l + n)
    ensures SearchFrom(root, stop, next, l, n) == None
    decreases n
  {
    if n > 0 {
      PassOn(root, stop, next, l, n, l + n);
      Miss(root, stop, next, l + 1, n - 1);
    }
  }

  /** When the empty level has no successors, a search that reaches an empty level finds
      nothing. */
  lemma {:induction false} FromEmpty<T>(root: seq<T>, stop: T -> bool, next: seq<T> -> seq<T>, l: nat, n: nat)
    requires LevelAt(root, next, l) == [] && next([]) == []
    ensures SearchFrom(root, stop, next, l, n) == None
    decreases n
  {
    if n > 0 {
      FromEmpty(root, stop, next, l + 1, n - 1);
    }
  }

  /** The early exit on an empty level changes nothing: the search run on level `l` is the
      level-by-level search from `l`. */
  lemma {:induction false} SearchIsSearchFrom<T>(root: seq<T>, stop: T -> bool, next: seq<T> -> seq<T>, l: nat, n: nat)
    requires next([]) == []
    ensures Search(LevelAt(root, next, l), stop, next, n) == SearchFrom(root, stop, next, l, n)
    decreases n
  {
    if LevelAt(root, next, l) == [] {
      FromEmpty(root, stop, next, l, n);
    } else if n > 0 {
      SearchIsSearchFrom(root, stop, next, l + 1, n - 1);
    }
  }
}
