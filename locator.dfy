/** `findNestedProperty`: a breadth-first search, one level at a time and bounded by a depth,
    for the first object that has exactly one key matching a pattern. */
module Locator {
  import opened JsValues
  import opened Options
  import opened LevelOrder

  /** The transforms the filter hands to the locator: `x => x`, and
      `x => findNestedProperty(x, test, y => y, 0)`, which looks at the keys of `x` alone. */
  datatype Transform = Identity | Within(test: string -> bool)

  /** `fn(v)`. The transforms only read properties, so the `catch` that turns a throw into
      `undefined` never fires. */
  function Apply(fn: Transform, v: Value): Value
  {
    match fn
    case Identity => v
    case Within(test) => if Qualifies(v, test) then HitValue(v, test) else Undefined
  }

  /** A node where the search stops: an object with exactly one key matching the pattern. */
  predicate Qualifies(v: Value, test: string -> bool)
  {
    v.Obj? && |FilterKeys(v.fields, test)| == 1
  }

  /** The value under the single matching key of a qualifying node. */
  function HitValue(v: Value, test: string -> bool): Value
    requires Qualifies(v, test)
  {
    FilterKeys(v.fields, test)[0].1
  }

  /** The object-valued properties among the first `j` entries, in key order (null and
      primitives are left out). */
  function ObjectValuesUpTo(fields: seq<(string, Value)>, j: nat): seq<Value>
    requires j <= |fields|
  {
    if j == 0 then []
    else
      var v := fields[j - 1].1;
      ObjectValuesUpTo(fields, j - 1) + (if v.Obj? then [v] else [])
  }

  /** What a node that is passed over adds to the next level. */
  function ChildrenOf(v: Value): seq<Value>
  {
    if v.Obj? then ObjectValuesUpTo(v.fields, |v.fields|) else []
  }

  /** The children of the first `i` nodes of a level, in order. */
  function ChildrenUpTo(level: seq<Value>, i: nat): seq<Value>
    requires i <= |level|
  {
    if i == 0 then [] else ChildrenUpTo(level, i - 1) + ChildrenOf(level[i - 1])
  }

  /** The level after `level`: the children of all its nodes, in order. */
  function NextLevel(level: seq<Value>): seq<Value>
  {
    ChildrenUpTo(level, |level|)
  }

  /** The stop test of the search: the node qualifies. */
  function Stops(test: string -> bool): Value -> bool
  {
    v => Qualifies(v, test)
  }

  /** `lvl <= depth` admits the levels 0 to `depth`: none when `depth` is negative. */
  function LevelsInspected(depth: int): nat
  {
    if depth < 0 then 0 else depth + 1
  }

  /** The value `findNestedProperty(obj, test, fn, depth)` returns: `fn` applied to the value
      under the single matching key of the node the level-order search from `obj` stops at,
      undefined when it stops nowhere. */
  function Locate(obj: Value, test: string -> bool, fn: Transform, depth: int): Value
  {
    match Search([obj], Stops(test), NextLevel, LevelsInspected(depth))
    case None => Undefined
    case Some(node) => Apply(fn, HitValue(node, test))
  }

  /** The objects reachable from `root` through exactly `l` object-valued properties, in
      breadth-first order. */
  function NodesAt(root: Value, l: nat): seq<Value>
  {
    LevelAt([root], NextLevel, l)
  }

  /** No node of levels `from` to `to - 1` qualifies. */
  ghost predicate NoHitBetween(root: Value, test: string -> bool, from: nat, to: int)
  {
    forall m: nat, j :: from <= m < to && 0 <= j < |NodesAt(root, m)| ==> !Qualifies(NodesAt(root, m)[j], test)
  }

  lemma NoHitBetweenIsNoStop(root: Value, test: string -> bool, from: nat, to: int)
    requires NoHitBetween(root, test, from, to)
    ensures NoStopBetween([root], Stops(test), NextLevel, from, to)
  {
    forall m: nat | from <= m < to ensures NoStopOnLevel([root], Stops(test), NextLevel, m) {
      assert NoStopAt(NodesAt(root, m), Stops(test));
    }
  }

  /** The locator returns `fn` applied to the value under the single matching key of the first
      qualifying node in breadth-first order (level by level, keys in order), provided that node
      lies within `depth` levels; it stops there, whatever `fn` returns. */
  lemma LocateFindsFirstHit(root: Value, test: string -> bool, fn: Transform, depth: int, l: nat, i: nat)
    requires l <= depth
    requires i < |NodesAt(root, l)| && Qualifies(NodesAt(root, l)[i], test)
    requires NoHitBetween(root, test, 0, l)
    requires forall j :: 0 <= j < i ==> !Qualifies(NodesAt(root, l)[j], test)
    ensures Locate(root, test, fn, depth) == Apply(fn, HitValue(NodesAt(root, l)[i], test))
  {
    NoHitBetweenIsNoStop(root, test, 0, l);
    assert NoStopBefore(NodesAt(root, l), Stops(test), i);
    SearchIsSearchFrom([root], Stops(test), NextLevel, 0, depth + 1);
    Hit([root], Stops(test), NextLevel, 0, depth + 1, l, i);
  }

  /** Without a qualifying node in levels 0 to `depth`, the locator returns undefined. */
  lemma LocateMisses(root: Value, test: string -> bool, fn: Transform, depth: int)
    requires NoHitBetween(root, test, 0, depth + 1)
    ensures Locate(root, test, fn, depth) == Undefined
  {
    if depth >= 0 {
      NoHitBetweenIsNoStop(root, test, 0, depth + 1);
      SearchIsSearchFrom([root], Stops(test), NextLevel, 0, depth + 1);
      Miss([root], Stops(test), NextLevel, 0, depth + 1);
    }
  }

  /** With depth 0 only the root's own keys are tested. */
  lemma LocateDepthZero(root: Value, test: string -> bool, fn: Transform)
    ensures Locate(root, test, fn, 0) == (if Qualifies(root, test) then Apply(fn, HitValue(root, test)) else Undefined)
  {
    if !Qualifies(root, test) {
      assert FirstStop([root], Stops(test), 1) == 1;
    }
  }

  /** The nested transform is the locator itself, run on its argument with depth 0. */
  lemma WithinIsLocate(v: Value, test: string -> bool)
    ensures Apply(Within(test), v) == Locate(v, test, Identity, 0)
  {
    LocateDepthZero(v, test, Identity);
  }

  /** A node qualifies exactly when one of its keys, and only one, matches; the value the
      transform receives is the value under that key. */
  lemma QualifiesIsUniqueKey(v: Value, test: string -> bool)
    requires v.Obj?
    ensures Qualifies(v, test) <==> exists i :: UniqueKeyAt(v.fields, test, i)
    ensures forall i :: UniqueKeyAt(v.fields, test, i) ==> HitValue(v, test) == v.fields[i].1
  {
    if Qualifies(v, test) {
      FilterKeysOneIsUnique(v.fields, test);
    }
    forall i | UniqueKeyAt(v.fields, test, i) ensures Qualifies(v, test) && HitValue(v, test) == v.fields[i].1 {
      FilterKeysSingle(v.fields, test, i);
    }
  }

  /** A node with two matching keys is never a match: the search passes over it. */
  lemma TwoMatchesPassOver(v: Value, test: string -> bool, i: int, j: int)
    requires v.Obj? && 0 <= i < j < |v.fields|
    requires test(v.fields[i].0) && test(v.fields[j].0)
    ensures !Qualifies(v, test)
  {
    FilterKeysTwo(v.fields, test, i, j);
  }

  /** The innermost loop: the object-valued properties of a node passed over, pushed in order. */
  method PushObjects(queue: seq<Value>, fields: seq<(string, Value)>) returns (q: seq<Value>)
    ensures q == queue + ObjectValuesUpTo(fields, |fields|)
  {
    q := queue;
    for j := 0 to |fields|
      invariant q == queue + ObjectValuesUpTo(fields, j)
    {
      var v := fields[j].1;
      if v.Obj? {
        q := q + [v];
      }
    }
  }

  /** The front of a queue that holds the rest of a level followed by what was pushed. */
  lemma QueueShift(level: seq<Value>, i: nat, queue: seq<Value>)
    requires i < |level| && queue == level[i..] + ChildrenUpTo(level, i)
    ensures queue != [] && queue[0] == level[i] && queue[1..] == level[i + 1..] + ChildrenUpTo(level, i)
  {
    assert level[i..] == [level[i]] + level[i + 1..];
  }

  /** Pushing the children of node `i` at the back of such a queue. */
  lemma QueuePush(level: seq<Value>, i: nat, rest: seq<Value>)
    requires i < |level| && rest == level[i + 1..] + ChildrenUpTo(level, i)
    ensures rest + ChildrenOf(level[i]) == level[i + 1..] + ChildrenUpTo(level, i + 1)
  {
  }

  /** The inner loop of `findNestedProperty` over one level: the nodes of the level are shifted
      off the front of the queue in order; a qualifying node stops the search with the
      transformed value, any other object has its object-valued properties pushed at the back. */
  method ScanQueueLevel(level: seq<Value>, test: string -> bool, fn: Transform)
    returns (stopped: bool, r: Value, queue: seq<Value>)
    ensures stopped <==> FirstStop(level, Stops(test), 0) < |level|
    ensures stopped ==> r == Apply(fn, HitValue(level[FirstStop(level, Stops(test), 0)], test))
    ensures !stopped ==> queue == NextLevel(level)
  {
    queue := level;
    for i := 0 to |level|
      invariant queue == level[i..] + ChildrenUpTo(level, i)
      invariant FirstStop(level, Stops(test), 0) == FirstStop(level, Stops(test), i)
    {
      QueueShift(level, i, queue);
      var cur := queue[0];
      queue := queue[1..];
      if !cur.Obj? {
        assert ChildrenUpTo(level, i + 1) == ChildrenUpTo(level, i);
        continue;
      }
      var keys := FilterKeys(cur.fields, test);
      if |keys| == 1 {
        return true, Apply(fn, keys[0].1), queue;
      }
      QueuePush(level, i, queue);
      queue := PushObjects(queue, cur.fields);
    }
    return false, Undefined, queue;
  }

  /** The loop of `findNestedProperty`: a queue worked level by level, `lvl` counting levels. */
  method FindNestedProperty(obj: Value, test: string -> bool, fn: Transform, depth: int) returns (r: Value)
    ensures r == Locate(obj, test, fn, depth)
  {
    ghost var stop := Stops(test);
    ghost var target := Search([obj], stop, NextLevel, LevelsInspected(depth));
    var queue := [obj];
    var lvl := 0;
    while queue != [] && lvl <= depth
      invariant 0 <= lvl
      invariant Search(queue, stop, NextLevel, LevelsInspected(depth - lvl)) == target
      decreases depth - lvl
    {
      var stopped, found, next := ScanQueueLevel(queue, test, fn);
      if stopped {
        SearchStops(queue, stop, NextLevel, LevelsInspected(depth - lvl));
        return found;
      }
      SearchPasses(queue, stop, NextLevel, LevelsInspected(depth - lvl));
      queue := next;
      lvl := lvl + 1;
    }
    r := Undefined;
  }
}
