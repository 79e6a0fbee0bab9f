/** The fixed category table, the decimal ids used as digest-probe input, the
    configuration string of categories to hide, and the hide decision. */
module Categories {

  /** `categoryMap` in declaration order: every label with its id. */
  const CategoryMap: seq<(string, nat)> := [
    ("UNKNOWN", 0), ("ORGANIC", 1), ("ENGAGEMENT", 2), ("FIXED_POSITION", 3), ("PROMOTION", 4),
    ("SPONSORED", 5), ("END_OF_FEED_CONTENT", 6), ("FB_STORIES", 7), ("HIGH_VALUE_PROMOTION", 8),
    ("FB_STORIES_ENGAGEMENT", 9), ("SHOWCASE", 10), ("FB_SHORTS", 11), ("TRENDING", 12),
    ("ENGAGEMENT_QP", 13), ("MULTI_FB_STORIES_TRAY", 14), ("END_OF_FEED_REELS", 15),
    ("FB_SHORTS_FALLBACK", 16)
  ]

  /** The number of entries in `categoryMap`. */
  const CategoryCount: nat := 17

  /** `s in categoryMap`, restricted to the table's own keys. */
  ghost predicate IsLabel(s: string)
  {
    exists i :: 0 <= i < |CategoryMap| && CategoryMap[i].0 == s
  }

  /** Whether `s` is a label, decided by walking the table. */
  predicate InTable(s: string, table: seq<(string, nat)>)
  {
    table != [] && (table[0].0 == s || InTable(s, table[1..]))
  }

  predicate IsCategory(s: string)
  {
    InTable(s, CategoryMap)
  }

  lemma {:induction false} InTableIff(s: string, table: seq<(string, nat)>)
    ensures InTable(s, table) <==> exists i :: 0 <= i < |table| && table[i].0 == s
  {
    if table != [] {
      InTableIff(s, table[1..]);
      if InTable(s, table[1..]) {
        var i :| 0 <= i < |table[1..]| && table[1..][i].0 == s;
        assert table[i + 1].0 == s;
      }
      if exists i :: 0 <= i < |table| && table[i].0 == s {
        var i :| 0 <= i < |table| && table[i].0 == s;
        if i > 0 {
          assert table[1..][i - 1].0 == s;
        }
      }
    }
  }

  /** The membership test the filter uses agrees with the table. */
  lemma IsCategoryIsLabel(s: string)
    ensures IsCategory(s) <==> IsLabel(s)
  {
    InTableIff(s, CategoryMap);
  }

  /** Each id is the label's position in the table, so labels and ids are in one-to-one correspondence. */
  lemma CategoryIdsArePositions()
    ensures |CategoryMap| == CategoryCount
    ensures forall i :: 0 <= i < |CategoryMap| ==> CategoryMap[i].1 == i
    ensures forall i, j :: 0 <= i < j < |CategoryMap| ==> CategoryMap[i].0 != CategoryMap[j].0
  {
  }

  function DigitChar(d: nat): (c: char)
    requires d < 10
    ensures '0' <= c <= '9'
  {
    ('0' as int + d) as char
  }

  /** The decimal text of a number, as JavaScript's string concatenation writes it. */
  function Decimal(n: nat): (s: string)
    ensures s != []
    ensures forall c :: c in s ==> '0' <= c <= '9'
  {
    if n < 10 then [DigitChar(n)] else Decimal(n / 10) + [DigitChar(n % 10)]
  }

  /** The probe-cache key `b + '|' + id`. */
  function ProbeKey(b: string, id: nat): string
  {
    b + "|" + Decimal(id)
  }

  /** Splitting a key at its last `|` recovers both parts, whatever the digest text holds. */
  lemma {:induction false} SplitAtLastBar(b1: string, d1: string, b2: string, d2: string)
    requires '|' !in d1 && '|' !in d2
    requires b1 + "|" + d1 == b2 + "|" + d2
    ensures b1 == b2 && d1 == d2
  {
    var k := b1 + "|" + d1;
    assert k[|b1|] == '|' && k[|b2|] == '|';
    assert |d1| == |d2|;
    assert b1 == k[..|b1|] && b2 == k[..|b2|];
    assert d1 == k[|b1| + 1..] && d2 == k[|b2| + 1..];
  }

  /** Distinct (digest, id) pairs never share a probe-cache key. */
  lemma ProbeKeyInjective(b1: string, id1: nat, b2: string, id2: nat)
    requires ProbeKey(b1, id1) == ProbeKey(b2, id2)
    ensures b1 == b2 && Decimal(id1) == Decimal(id2)
  {
    SplitAtLastBar(b1, Decimal(id1), b2, Decimal(id2));
  }

  // The configuration string: a bar-separated list of names, upper-cased.

  /** The characters of JavaScript's `\s`. */
  predicate IsSpace(c: char)
  {
    c == ' ' || c == '\t' || c == '\n' || c == '\U{B}' || c == '\U{C}' || c == '\r' ||
    c == '\U{A0}' || c == '\U{1680}' || ('\U{2000}' <= c <= '\U{200A}') ||
    c == '\U{2028}' || c == '\U{2029}' || c == '\U{202F}' || c == '\U{205F}' ||
    c == '\U{3000}' || c == '\U{FEFF}'
  }

  /** `s.split('|')`: the pieces between bars, at least one. */
  function Split(s: string): (pieces: seq<string>)
    ensures |pieces| >= 1
  {
    if s == [] then [""]
    else
      var rest := Split(s[1..]);
      if s[0] == '|' then [""] + rest else [[s[0]] + rest[0]] + rest[1..]
  }

  function TrimStart(s: string): string
  {
    if s != [] && IsSpace(s[0]) then TrimStart(s[1..]) else s
  }

  function TrimEnd(s: string): string
  {
    if s != [] && IsSpace(s[|s| - 1]) then TrimEnd(s[..|s| - 1]) else s
  }

  /** The separator also swallows the white space next to each bar: trim the
      start of every piece but the first and the end of every piece but the last. */
  function TrimAroundBars(raw: seq<string>, first: bool): (pieces: seq<string>)
    ensures |pieces| == |raw|
  {
    if raw == [] then []
    else
      var head := if first then raw[0] else TrimStart(raw[0]);
      [if |raw| > 1 then TrimEnd(head) else head] + TrimAroundBars(raw[1..], false)
  }

  function Pieces(config: string): seq<string>
  {
    TrimAroundBars(Split(config), true)
  }

  function UpperChar(c: char): char
  {
    if 'a' <= c <= 'z' then (c as int - 32) as char else c
  }

  /** `toUpperCase`, for ASCII letters. */
  function ToUpper(s: string): (u: string)
    ensures |u| == |s|
  {
    if s == [] then [] else [UpperChar(s[0])] + ToUpper(s[1..])
  }

  /** `setOfCategoriesToHide`: empty for an empty or unsubstituted argument, otherwise the
      upper-cased pieces of the bar-separated list. */
  function SetOfCategoriesToHide(config: string): set<string>
  {
    if config == "" || config == "{{1}}" then {}
    else set piece | piece in Pieces(config) :: ToUpper(piece)
  }

  /** The names joined by bars, as a user writes the argument. */
  function Join(names: seq<string>): string
    requires |names| >= 1
  {
    if |names| == 1 then names[0] else names[0] + "|" + Join(names[1..])
  }

  lemma {:induction false} SplitNoBar(a: string)
    requires '|' !in a
    ensures Split(a) == [a]
  {
    if a != [] {
      SplitNoBar(a[1..]);
      assert [a[0]] + a[1..] == a;
    }
  }

  lemma {:induction false} SplitBar(a: string, t: string)
    requires '|' !in a
    ensures Split(a + "|" + t) == [a] + Split(t)
  {
    if a == [] {
      assert a + "|" + t == "|" + t;
      assert ("|" + t)[1..] == t;
    } else {
      assert (a + "|" + t)[1..] == a[1..] + "|" + t;
      SplitBar(a[1..], t);
      assert [a[0]] + a[1..] == a;
    }
  }

  lemma {:induction false} SplitJoin(names: seq<string>)
    requires |names| >= 1
    requires forall n :: n in names ==> '|' !in n
    ensures Split(Join(names)) == names
  {
    if |names| == 1 {
      SplitNoBar(names[0]);
    } else {
      SplitBar(names[0], Join(names[1..]));
      SplitJoin(names[1..]);
    }
  }

  /** A name with no white space at either end. */
  predicate Tidy(n: string)
  {
    n != "" && !IsSpace(n[0]) && !IsSpace(n[|n| - 1]) && '|' !in n
  }

  lemma {:induction false} TrimTidy(raw: seq<string>, first: bool)
    requires forall n :: n in raw ==> Tidy(n)
    ensures TrimAroundBars(raw, first) == raw
  {
    if raw != [] {
      var n := raw[0];
      assert Tidy(n);
      assert TrimStart(n) == n;
      assert TrimEnd(n) == n;
      TrimTidy(raw[1..], false);
    }
  }

  lemma {:induction false} JoinLength(names: seq<string>)
    requires |names| >= 1
    ensures |Join(names)| >= |names[0]|
  {
  }

  lemma {:induction false} UpperIsFixed(s: string)
    requires forall i :: 0 <= i < |s| ==> !('a' <= s[i] <= 'z')
    ensures ToUpper(s) == s
  {
    if s != [] {
      assert UpperChar(s[0]) == s[0];
      UpperIsFixed(s[1..]);
      assert [s[0]] + s[1..] == s;
    }
  }

  /** Round trip: a bar-separated list of tidy names configures exactly those names, upper-cased. */
  lemma ParseJoined(names: seq<string>)
    requires |names| >= 1
    requires forall n :: n in names ==> Tidy(n)
    requires Join(names) != "{{1}}"
    ensures SetOfCategoriesToHide(Join(names)) == (set n | n in names :: ToUpper(n))
  {
    SplitJoin(names);
    TrimTidy(names, true);
    JoinLength(names);
    assert Tidy(names[0]);
    var config := Join(names);
    assert config != "";
    assert Pieces(config) == names;
  }

  /** `processInsertedFeedUnit`'s switch: ORGANIC is never hidden, SPONSORED always is,
      every other category only when it was configured. */
  function ShouldHide(category: string, hideSet: set<string>): (hides: bool)
    ensures category == "ORGANIC" ==> !hides
    ensures category == "SPONSORED" ==> hides
    ensures category != "ORGANIC" && category != "SPONSORED" ==> (hides <==> category in hideSet)
  {
    match category
    case "ORGANIC" => false
    case "SPONSORED" => true
    case _ => category in hideSet
  }

  /** The names every object inherits from `Object.prototype`; `x in categoryMap` holds for
      them as well as for the table's own labels. */
  const InheritedNames: set<string> := {
    "constructor", "__defineGetter__", "__defineSetter__", "hasOwnProperty", "__lookupGetter__",
    "__lookupSetter__", "isPrototypeOf", "propertyIsEnumerable", "toString", "valueOf",
    "__proto__", "toLocaleString"
  }

  /** `s in categoryMap`. */
  predicate InCategoryMap(s: string)
  {
    IsCategory(s) || s in InheritedNames
  }

  predicate HasLower(s: string)
  {
    exists i :: 0 <= i < |s| && 'a' <= s[i] <= 'z'
  }

  /** Upper-casing leaves no lower-case ASCII letter behind. */
  lemma {:induction false} ToUpperHasNoLower(s: string)
    ensures !HasLower(ToUpper(s))
  {
    if s != [] {
      ToUpperHasNoLower(s[1..]);
      var u := ToUpper(s);
      forall i | 0 <= i < |u| ensures !('a' <= u[i] <= 'z') {
        if i > 0 {
          assert u[i] == ToUpper(s[1..])[i - 1];
        }
      }
    }
  }

  /** An inherited name passes `in categoryMap`, yet no configuration hides it: every
      configured name is upper-cased and every inherited name has a lower-case letter. */
  lemma InheritedNeverHidden(g: string, config: string)
    requires g in InheritedNames
    ensures InCategoryMap(g) && !ShouldHide(g, SetOfCategoriesToHide(config))
  {
    assert HasLower(g) by {
      if g == "__proto__" || g == "__defineGetter__" || g == "__defineSetter__" ||
         g == "__lookupGetter__" || g == "__lookupSetter__" {
        assert 'a' <= g[3] <= 'z';
      } else {
        assert 'a' <= g[1] <= 'z';
      }
    }
    if g in SetOfCategoriesToHide(config) {
      var piece :| piece in Pieces(config) && ToUpper(piece) == g;
      ToUpperHasNoLower(piece);
    }
  }

  /** With no configuration only SPONSORED is hidden. */
  lemma EmptyConfigHidesOnlySponsored(category: string, config: string)
    requires config == "" || config == "{{1}}"
    ensures ShouldHide(category, SetOfCategoriesToHide(config)) <==> category == "SPONSORED"
  {
  }
}
