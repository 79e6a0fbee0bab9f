/** JavaScript values as the feed filter sees them inside a component-state tree,
    the key filters it applies to objects, and the key-name patterns it searches for. */
module JsValues {

  /** A value of the component-state tree. Arrays are objects whose keys are their indices.
      `Prim` stands for a string (numbers and booleans are carried as their text). */
  datatype Value = Undefined | Null | Prim(text: string) | Obj(fields: seq<(string, Value)>)

  /** JavaScript truthiness: undefined, null and the empty string are falsy, objects are truthy. */
  predicate Truthy(v: Value)
  {
    match v
    case Undefined => false
    case Null => false
    case Prim(t) => t != ""
    case Obj(_) => true
  }

  /** `v?.[key]`: the property `key` of an object, `undefined` for anything else or a missing key. */
  function Get(v: Value, key: string): Value
  {
    if v.Obj? then Lookup(v.fields, key) else Undefined
  }

  /** The value stored under `key` (the first entry with that key), `undefined` if there is none. */
  function Lookup(fields: seq<(string, Value)>, key: string): Value
  {
    if fields == [] then Undefined
    else if fields[0].0 == key then fields[0].1
    else Lookup(fields[1..], key)
  }

  /** The entries of an object whose key satisfies `keep`, in key order
      (`Object.keys(o).filter(keep)` together with the values). */
  function FilterKeys(fields: seq<(string, Value)>, keep: string -> bool): (r: seq<(string, Value)>)
    ensures |r| <= |fields|
  {
    if fields == [] then []
    else (if keep(fields[0].0) then [fields[0]] else []) + FilterKeys(fields[1..], keep)
  }

  /** Entry `i` is the one and only entry whose key satisfies `keep`. */
  ghost predicate UniqueKeyAt(fields: seq<(string, Value)>, keep: string -> bool, i: int)
  {
    0 <= i < |fields| && keep(fields[i].0) &&
    forall j :: 0 <= j < |fields| && j != i ==> !keep(fields[j].0)
  }

  /** A filter keeps exactly one entry precisely when one key, and only one, satisfies the test;
      that entry is then the one kept. */
  lemma {:induction false} FilterKeysSingle(fields: seq<(string, Value)>, keep: string -> bool, i: int)
    requires UniqueKeyAt(fields, keep, i)
    ensures FilterKeys(fields, keep) == [fields[i]]
  {
    if i == 0 {
      FilterKeysNone(fields[1..], keep);
    } else {
      assert UniqueKeyAt(fields[1..], keep, i - 1);
      FilterKeysSingle(fields[1..], keep, i - 1);
    }
  }

  lemma {:induction false} FilterKeysNone(fields: seq<(string, Value)>, keep: string -> bool)
    requires forall j :: 0 <= j < |fields| ==> !keep(fields[j].0)
    ensures FilterKeys(fields, keep) == []
  {
    if fields != [] {
      FilterKeysNone(fields[1..], keep);
    }
  }

  /** Two distinct keys satisfying the test leave at least two entries. */
  lemma {:induction false} FilterKeysTwo(fields: seq<(string, Value)>, keep: string -> bool, i: int, j: int)
    requires 0 <= i < j < |fields| && keep(fields[i].0) && keep(fields[j].0)
    ensures |FilterKeys(fields, keep)| >= 2
  {
    if i == 0 {
      FilterKeysAtLeastOne(fields[1..], keep, j - 1);
    } else {
      FilterKeysTwo(fields[1..], keep, i - 1, j - 1);
    }
  }

  lemma {:induction false} FilterKeysAtLeastOne(fields: seq<(string, Value)>, keep: string -> bool, j: int)
    requires 0 <= j < |fields| && keep(fields[j].0)
    ensures |FilterKeys(fields, keep)| >= 1
  {
    if j > 0 {
      FilterKeysAtLeastOne(fields[1..], keep, j - 1);
    }
  }

  /** Conversely, a filter that keeps exactly one entry found a unique key. */
  lemma {:induction false} FilterKeysOneIsUnique(fields: seq<(string, Value)>, keep: string -> bool)
    requires |FilterKeys(fields, keep)| == 1
    ensures exists i :: UniqueKeyAt(fields, keep, i)
  {
    var rest := FilterKeys(fields[1..], keep);
    if keep(fields[0].0) {
      assert |rest| == 0;
      forall j | 1 <= j < |fields| ensures !keep(fields[j].0) {
        if keep(fields[j].0) {
          FilterKeysAtLeastOne(fields[1..], keep, j - 1);
          assert false;
        }
      }
      assert UniqueKeyAt(fields, keep, 0);
    } else {
      FilterKeysOneIsUnique(fields[1..], keep);
      var i :| UniqueKeyAt(fields[1..], keep, i);
      assert UniqueKeyAt(fields, keep, i + 1);
    }
  }

  predicate StartsWith(s: string, prefix: string)
  {
    |prefix| <= |s| && s[..|prefix|] == prefix
  }

  /** `sub` occurs somewhere in `s` (a regular expression made of plain characters). */
  predicate Contains(s: string, sub: string)
    decreases |s|
  {
    StartsWith(s, sub) || (s != [] && Contains(s[1..], sub))
  }

  lemma {:induction false} ContainsAt(s: string, sub: string, i: nat)
    requires i + |sub| <= |s| && s[i..i + |sub|] == sub
    ensures Contains(s, sub)
  {
    if i > 0 {
      assert s[1..][i - 1..i - 1 + |sub|] == s[i..i + |sub|];
      ContainsAt(s[1..], sub, i - 1);
    }
  }

  /** The characters that `.` in a JavaScript regular expression does not match. */
  predicate IsLineTerminator(c: char)
  {
    c == '\n' || c == '\r' || c == '\U{2028}' || c == '\U{2029}'
  }

  /** `/[sS]ens/` occurs in `s` after a run of characters that contains no line terminator. */
  predicate SensAhead(s: string)
    decreases |s|
  {
    StartsWith(s, "sens") || StartsWith(s, "Sens") ||
    (s != [] && !IsLineTerminator(s[0]) && SensAhead(s[1..]))
  }

  /** `/cat.*[sS]ens/` matches somewhere in `s`. */
  predicate CatThenSens(s: string)
    decreases |s|
  {
    (StartsWith(s, "cat") && SensAhead(s[3..])) || (s != [] && CatThenSens(s[1..]))
  }

  /** The key-name patterns the filter uses. */
  datatype Pattern = Feed | Category | Enc | PostId | Cat | CatSens

  predicate Matches(p: Pattern, key: string)
  {
    match p
    case Feed => Contains(key, "feed")
    case Category => Contains(key, "category")
    case Enc => Contains(key, "enc")
    case PostId => Contains(key, "post_id")
    case Cat => Contains(key, "cat")
    case CatSens => CatThenSens(key)
  }

  /** The key test `k => p.test(k)`. */
  function KeyTest(p: Pattern): string -> bool
  {
    k => Matches(p, k)
  }

  /** The entries of an object whose key matches `p`. */
  function Matching(fields: seq<(string, Value)>, p: Pattern): seq<(string, Value)>
  {
    FilterKeys(fields, KeyTest(p))
  }
}
