/** The feed filter of `facebook-feeds-filter.js`: the state it keeps between mutations (the
    processed guard, the hidden feed units and the resolver's three memo maps), the resolver,
    the dispatcher and the per-node pipeline. */
module FeedsFilter {
  import opened JsValues
  import opened Options
  import opened Categories
  import opened Locator
  import opened Resolver

  /** A DOM node handed to the pipeline: its identity, whether it is an `HTMLDivElement`, and
      its own enumerable properties (among them the `__reactProps$…` bag). */
  datatype Element = Element(handle: nat, isDiv: bool, own: seq<(string, Value)>)

  /** What the resolver hands back: the node and the label it derived. */
  datatype Context = Context(node: nat, category: string)

  /** What the pipeline decides for a node before any memo map is consulted. */
  datatype Step = Ignore | Dispatch(category: string) | Resolve(enc: string, postId: string)

  /** `x in categoryMap` for a located value. A value that is not a string never passes: its
      property key is `"[object Object]"`, `"null"` or `"undefined"`. */
  predicate Known(v: Value)
  {
    v.Prim? && InCategoryMap(v.text)
  }

  function IsReactKey(k: string): bool
  {
    StartsWith(k, "__reactProps")
  }

  /** `extractReactProps`: the value under the one key that starts with `__reactProps`, or null
      when there is no such key or more than one. */
  function ExtractReactProps(own: seq<(string, Value)>): Value
  {
    var ks := FilterKeys(own, IsReactKey);
    if |ks| != 1 then Null else ks[0].1
  }

  /** The props bag is the value under the unique `__reactProps` key; without exactly one such
      key the result is null. */
  lemma ExtractReactPropsUnique(own: seq<(string, Value)>)
    ensures forall i :: UniqueKeyAt(own, IsReactKey, i) ==> ExtractReactProps(own) == own[i].1
    ensures (forall i :: !UniqueKeyAt(own, IsReactKey, i)) ==> ExtractReactProps(own) == Null
  {
    forall i | UniqueKeyAt(own, IsReactKey, i) ensures ExtractReactProps(own) == own[i].1 {
      FilterKeysSingle(own, IsReactKey, i);
    }
    if |FilterKeys(own, IsReactKey)| == 1 {
      FilterKeysOneIsUnique(own, IsReactKey);
    }
  }

  /** `a ?? b`. */
  function Nullish(a: Value, b: Value): Value
  {
    if a == Undefined || a == Null then b else a
  }

  /** `o.children?.props?.children?.props?.children?.props`, the fixed path to the props that
      hold the feed unit. */
  function DeepProps(o: Value): Value
  {
    Get(Get(Get(Get(Get(Get(o, "children"), "props"), "children"), "props"), "children"), "props")
  }

  /** The sub-object the search starts from: the deep path when it is truthy, otherwise
      `o.children?.props ?? o.props ?? o`. */
  function Down(o: Value): Value
  {
    var deep := DeepProps(o);
    if Truthy(deep) then deep else Nullish(Get(Get(o, "children"), "props"), Nullish(Get(o, "props"), o))
  }

  /** The decision for a located `feed` object: the plain category, else the obfuscated pair,
      else the loose `cat` fallback. An `enc` or `post_id` that is truthy but not a string is
      not resolved. */
  function Classify(feed: Value): Step
  {
    if !Truthy(feed) then Ignore
    else
      var plain := Locate(feed, KeyTest(Category), Identity, 0);
      if Truthy(plain) && Known(plain) then Dispatch(plain.text)
      else
        var enc := Locate(feed, KeyTest(CatSens), Within(KeyTest(Enc)), 0);
        var postId := Locate(feed, KeyTest(PostId), Identity, 2);
        if Truthy(enc) && Truthy(postId) then
          if enc.Prim? && postId.Prim? then Resolve(enc.text, postId.text) else Ignore
        else if !Truthy(enc) then
          var cat2 := Locate(feed, KeyTest(CatSens), Within(KeyTest(Cat)), 0);
          if Truthy(cat2) && Known(cat2) then Dispatch(cat2.text) else Ignore
        else Ignore
  }

  /** The decision for a node's own properties, from the props bag down to the `feed` object. */
  function Route(own: seq<(string, Value)>): Step
  {
    var o := ExtractReactProps(own);
    if !Truthy(o) then Ignore
    else
      var down := Down(o);
      if !Truthy(down) then Ignore
      else Classify(Locate(down, KeyTest(Feed), Identity, 4))
  }

  /** What the pipeline does for the node: nothing for a non-div or a node already processed. */
  function Decide(node: Element, processed: set<nat>): Step
  {
    if !node.isDiv || node.handle in processed then Ignore else Route(node.own)
  }

  /** The category a resolution yields: the cached label for a known `enc`, otherwise the label
      derived from the probes. */
  function Resolution(cache: map<string, string>, hash: string -> string, enc: string, postId: string): Option<string>
  {
    if enc in cache then Some(cache[enc]) else ResolveLabel(hash, enc, postId)
  }

  /** The category the node is dispatched with, if any: the located label, or the label the
      resolver yields when it passes `ctx.category in categoryMap`. */
  function Dispatched(step: Step, cache: map<string, string>, hash: string -> string): Option<string>
  {
    match step
    case Ignore => None
    case Dispatch(g) => Some(g)
    case Resolve(enc, postId) =>
      var r := Resolution(cache, hash, enc, postId);
      if r.Some? && InCategoryMap(r.value) then r else None
  }

  /** The hidden set after dispatching `category` for `handle`. */
  function HiddenAfter(hidden: set<nat>, handle: nat, category: string, hideSet: set<string>): set<nat>
  {
    if ShouldHide(category, hideSet) then hidden + {handle} else hidden
  }

  /** The resolver's three memo maps: `postHashCache`, `encProbeCache` and `encToCategoryCache`. */
  datatype Memo = Memo(posts: map<string, string>, probes: map<string, string>, labels: map<string, string>)

  /** The memo maps after `fromObfuscatedCategory(enc, post_id)`: untouched when `enc` is already
      cached; otherwise the digest of the post id is stored, so are the probes tried up to the
      first match, and a derived label is recorded for `enc`. */
  function MemoAfter(m: Memo, hash: string -> string, enc: string, postId: string): Memo
  {
    if enc in m.labels then m
    else
      var b := hash(postId);
      Memo(m.posts[postId := b],
           ProbesOver(m.probes, hash, b, Tried(hash, b, enc)),
           match ResolveLabel(hash, enc, postId)
           case None => m.labels
           case Some(g) => m.labels[enc := g])
  }

  /** The memo maps after the pipeline acted on a decision: only a resolution touches them. */
  function MemoAfterStep(step: Step, m: Memo, hash: string -> string): Memo
  {
    match step
    case Resolve(enc, postId) => MemoAfter(m, hash, enc, postId)
    case _ => m
  }

  /** A resolution leaves `enc` in the category cache exactly when it yields a label, and then
      under that label; the entries for every other `enc` stay as they were. */
  lemma MemoAfterRecords(m: Memo, hash: string -> string, enc: string, postId: string)
    ensures enc in MemoAfter(m, hash, enc, postId).labels <==> Resolution(m.labels, hash, enc, postId).Some?
    ensures enc in MemoAfter(m, hash, enc, postId).labels ==>
              MemoAfter(m, hash, enc, postId).labels[enc] == Resolution(m.labels, hash, enc, postId).value
    ensures forall e :: e != enc ==>
              (e in MemoAfter(m, hash, enc, postId).labels <==> e in m.labels) &&
              (e in m.labels ==> MemoAfter(m, hash, enc, postId).labels[e] == m.labels[e])
  {
  }

  /** Once an `enc` has been resolved, every later resolution of it, whatever post id comes with
      it, is answered from the category cache: the same label, and all three maps unchanged. */
  lemma ResolvedEncIsAnsweredFromCache(m: Memo, hash: string -> string, enc: string, postId: string, postId2: string)
    requires Resolution(m.labels, hash, enc, postId).Some?
    ensures enc in MemoAfter(m, hash, enc, postId).labels
    ensures Resolution(MemoAfter(m, hash, enc, postId).labels, hash, enc, postId2) == Resolution(m.labels, hash, enc, postId)
    ensures MemoAfter(MemoAfter(m, hash, enc, postId), hash, enc, postId2) == MemoAfter(m, hash, enc, postId)
  {
  }

  /** The consistency of the filter's state: digests are non-empty, every memo map holds what
      its key asks for, the ghost logs list each hashed post id and each hashed probe key once,
      and every hidden unit was processed. */
  ghost predicate StateOk(hash: string -> string, postHashCache: map<string, string>,
                          encProbeCache: map<string, string>, encToCategoryCache: map<string, string>,
                          encSource: map<string, string>, postHashed: seq<string>, probed: seq<string>,
                          processed: set<nat>, hidden: set<nat>)
  {
    (forall s :: hash(s) != "") &&
    PostCacheOk(postHashCache, hash) &&
    ProbeCacheOk(encProbeCache, hash) &&
    EncCacheOk(encToCategoryCache, encSource, hash) &&
    LogMatches(postHashed, postHashCache) &&
    LogMatches(probed, encProbeCache) &&
    hidden <= processed
  }

  /** The check `ctx.category in categoryMap` after a resolution never fails: a consistent
      category cache and the probes only yield table labels. */
  lemma ResolutionIsCategory(cache: map<string, string>, source: map<string, string>, hash: string -> string,
                             enc: string, postId: string)
    requires EncCacheOk(cache, source, hash)
    ensures Resolution(cache, hash, enc, postId).Some? ==> IsCategory(Resolution(cache, hash, enc, postId).value)
    ensures Dispatched(Resolve(enc, postId), cache, hash) == Resolution(cache, hash, enc, postId)
  {
    if enc in cache {
      EncCacheHoldsCategories(cache, source, hash, enc);
    } else if ResolveLabel(hash, enc, postId).Some? {
      ResolvedIsCategory(hash, enc, postId);
    }
  }

  /** A unique `category` key holding a label dispatches that label, whatever else the feed holds. */
  lemma ClassifyPlain(feed: Value, i: int)
    requires feed.Obj? && UniqueKeyAt(feed.fields, KeyTest(Category), i)
    requires Known(feed.fields[i].1) && feed.fields[i].1.text != ""
    ensures Classify(feed) == Dispatch(feed.fields[i].1.text)
  {
    LocateDepthZero(feed, KeyTest(Category), Identity);
    QualifiesIsUniqueKey(feed, KeyTest(Category));
  }

  /** No key of `feed` that matches `/category/` holds a name that passes `in categoryMap`. */
  ghost predicate NoPlainLabel(feed: Value)
  {
    feed.Obj? && forall k :: 0 <= k < |feed.fields| && Matches(Category, feed.fields[k].0) ==> !Known(feed.fields[k].1)
  }

  /** The plain search of a `feed` object yields nothing that passes `in categoryMap`. */
  ghost predicate PlainMisses(feed: Value)
  {
    feed.Obj? && !Known(Locate(feed, KeyTest(Category), Identity, 0))
  }

  /** A feed none of whose `/category/` keys holds a label has no plain category. */
  lemma PlainNotKnown(feed: Value)
    requires NoPlainLabel(feed)
    ensures PlainMisses(feed)
  {
    LocateDepthZero(feed, KeyTest(Category), Identity);
    QualifiesIsUniqueKey(feed, KeyTest(Category));
  }

  /** Two keys matching `/category/` make the plain search come back undefined, whatever they
      hold: the depth-0 search passes over the feed object. */
  lemma TwoCategoryKeysNoPlain(feed: Value, i: int, j: int)
    requires feed.Obj? && 0 <= i < j < |feed.fields|
    requires Matches(Category, feed.fields[i].0) && Matches(Category, feed.fields[j].0)
    ensures Locate(feed, KeyTest(Category), Identity, 0) == Undefined
    ensures PlainMisses(feed)
  {
    TwoMatchesPassOver(feed, KeyTest(Category), i, j);
    LocateDepthZero(feed, KeyTest(Category), Identity);
  }

  /** A feed object whose own keys include both `category` and `category_sensitive` never
      yields a plain category, even when `category` holds a label. */
  lemma CategoryBesideSensitiveNoPlain(feed: Value, i: int, j: int)
    requires feed.Obj? && 0 <= i < |feed.fields| && 0 <= j < |feed.fields|
    requires feed.fields[i].0 == "category" && feed.fields[j].0 == "category_sensitive"
    ensures Locate(feed, KeyTest(Category), Identity, 0) == Undefined
  {
    ContainsAt(feed.fields[i].0, "category", 0);
    ContainsAt(feed.fields[j].0, "category", 0);
    if i < j {
      TwoCategoryKeysNoPlain(feed, i, j);
    } else {
      TwoCategoryKeysNoPlain(feed, j, i);
    }
  }

  /** The `enc` the nested transform finds: the sensitivity object under the unique key matching
      `/cat.*[sS]ens/` at position `i`, holding a unique `enc` key at position `j`. */
  lemma EncLocated(feed: Value, i: int, j: int)
    requires feed.Obj? && UniqueKeyAt(feed.fields, KeyTest(CatSens), i)
    requires feed.fields[i].1.Obj? && UniqueKeyAt(feed.fields[i].1.fields, KeyTest(Enc), j)
    ensures Locate(feed, KeyTest(CatSens), Within(KeyTest(Enc)), 0) == feed.fields[i].1.fields[j].1
  {
    LocateDepthZero(feed, KeyTest(CatSens), Within(KeyTest(Enc)));
    QualifiesIsUniqueKey(feed, KeyTest(CatSens));
    QualifiesIsUniqueKey(feed.fields[i].1, KeyTest(Enc));
  }

  /** An obfuscated pair is resolved: no plain category, a non-empty `enc` string inside the
      sensitivity object and a non-empty `post_id` string within two levels. */
  lemma ClassifyResolves(feed: Value, i: int, j: int, enc: string, postId: string)
    requires PlainMisses(feed) && UniqueKeyAt(feed.fields, KeyTest(CatSens), i)
    requires feed.fields[i].1.Obj? && UniqueKeyAt(feed.fields[i].1.fields, KeyTest(Enc), j)
    requires feed.fields[i].1.fields[j].1 == Prim(enc) && enc != ""
    requires Locate(feed, KeyTest(PostId), Identity, 2) == Prim(postId) && postId != ""
    ensures Classify(feed) == Resolve(enc, postId)
  {
    EncLocated(feed, i, j);
  }

  /** An `enc` without a `post_id` within two levels is ignored: the loose fallback is only
      tried when no `enc` was found. */
  lemma ClassifyEncWithoutPostId(feed: Value, i: int, j: int)
    requires PlainMisses(feed) && UniqueKeyAt(feed.fields, KeyTest(CatSens), i)
    requires feed.fields[i].1.Obj? && UniqueKeyAt(feed.fields[i].1.fields, KeyTest(Enc), j)
    requires Truthy(feed.fields[i].1.fields[j].1)
    requires NoHitBetween(feed, KeyTest(PostId), 0, 3)
    ensures Classify(feed) == Ignore
  {
    EncLocated(feed, i, j);
    LocateMisses(feed, KeyTest(PostId), Identity, 2);
  }

  /** Without an `enc` key in the sensitivity object, a unique `cat` key there holding a label
      dispatches that label. */
  lemma ClassifyFallback(feed: Value, i: int, j: int)
    requires PlainMisses(feed) && UniqueKeyAt(feed.fields, KeyTest(CatSens), i)
    requires feed.fields[i].1.Obj?
    requires forall k :: 0 <= k < |feed.fields[i].1.fields| ==> !Matches(Enc, feed.fields[i].1.fields[k].0)
    requires UniqueKeyAt(feed.fields[i].1.fields, KeyTest(Cat), j)
    requires Known(feed.fields[i].1.fields[j].1) && feed.fields[i].1.fields[j].1.text != ""
    ensures Classify(feed) == Dispatch(feed.fields[i].1.fields[j].1.text)
  {
    var x := feed.fields[i].1;
    LocateDepthZero(feed, KeyTest(CatSens), Within(KeyTest(Enc)));
    LocateDepthZero(feed, KeyTest(CatSens), Within(KeyTest(Cat)));
    QualifiesIsUniqueKey(feed, KeyTest(CatSens));
    FilterKeysNone(x.fields, KeyTest(Enc));
    QualifiesIsUniqueKey(x, KeyTest(Cat));
  }

  /** Every category the pipeline dispatches passes `in categoryMap`, and a resolved one is a
      table label. */
  lemma DispatchedIsInCategoryMap(node: Element, processed: set<nat>, cache: map<string, string>,
                                  hash: string -> string, g: string)
    requires Dispatched(Decide(node, processed), cache, hash) == Some(g)
    ensures InCategoryMap(g)
  {
  }

  /** A node without exactly one `__reactProps` key is left alone. */
  lemma RouteNeedsReactProps(own: seq<(string, Value)>)
    requires forall i :: !UniqueKeyAt(own, IsReactKey, i)
    ensures Route(own) == Ignore
  {
    ExtractReactPropsUnique(own);
  }

  /** The searches of `checkWhetherFeedUnit` below the `feed` object, in the source's order:
      the plain category, then `enc` and `post_id`, then the loose fallback. */
  method ClassifyFeed(feed: Value) returns (step: Step)
    ensures step == Classify(feed)
  {
    if !Truthy(feed) { return Ignore; }
    var plain := FindNestedProperty(feed, KeyTest(Category), Identity, 0);
    if Truthy(plain) && Known(plain) {
      return Dispatch(plain.text);
    }
    var enc := FindNestedProperty(feed, KeyTest(CatSens), Within(KeyTest(Enc)), 0);
    var postId := FindNestedProperty(feed, KeyTest(PostId), Identity, 2);
    if Truthy(enc) && Truthy(postId) {
      if enc.Prim? && postId.Prim? {
        return Resolve(enc.text, postId.text);
      }
      return Ignore;
    }
    step := Ignore;
    if !Truthy(enc) {
      var cat2 := FindNestedProperty(feed, KeyTest(CatSens), Within(KeyTest(Cat)), 0);
      if Truthy(cat2) && Known(cat2) {
        step := Dispatch(cat2.text);
      }
    }
  }

  /** The searches of `checkWhetherFeedUnit` from the node's own properties to the `feed`
      object: the props bag, the sub-object `down`, then `feed` within four levels. */
  method RouteProps(own: seq<(string, Value)>) returns (step: Step)
    ensures step == Route(own)
  {
    var o := ExtractReactProps(own);
    if !Truthy(o) { return Ignore; }
    var down := DeepProps(o);
    if !Truthy(down) {
      down := Nullish(Get(Get(o, "children"), "props"), Nullish(Get(o, "props"), o));
    }
    if !Truthy(down) { return Ignore; }
    var feed := FindNestedProperty(down, KeyTest(Feed), Identity, 4);
    step := ClassifyFeed(feed);
  }

  class Filter {
    /** The digest function `sha256`, as a deterministic function of the message. */
    const hash: string -> string
    /** `setOfCategoriesToHide`. */
    const hideSet: set<string>
    var postHashCache: map<string, string>
    var encProbeCache: map<string, string>
    var encToCategoryCache: map<string, string>
    /** The `processed` guard. */
    var processed: set<nat>
    /** The feed units that carry the hiding class. */
    var hidden: set<nat>
    /** Every post id hashed so far, in order. */
    ghost var postHashed: seq<string>
    /** Every probe key `b|id` whose probe was hashed so far, in order. */
    ghost var probed: seq<string>
    /** For each cached `enc`, the post id whose probes derived its label. */
    ghost var encSource: map<string, string>

    ghost predicate Valid()
      reads this
    {
      StateOk(hash, postHashCache, encProbeCache, encToCategoryCache, encSource, postHashed, probed,
              processed, hidden)
    }

    /** The three memo maps as they stand. */
    function Memos(): Memo
      reads this
    {
      Memo(postHashCache, encProbeCache, encToCategoryCache)
    }

    /** The script's start-up state: the configured set and empty caches. */
    constructor (hash: string -> string, config: string)
      requires forall s :: hash(s) != ""
      ensures Valid()
      ensures this.hash == hash && hideSet == SetOfCategoriesToHide(config)
      ensures postHashCache == map[] && encProbeCache == map[] && encToCategoryCache == map[]
      ensures processed == {} && hidden == {}
    {
      this.hash := hash;
      hideSet := SetOfCategoriesToHide(config);
      postHashCache, encProbeCache, encToCategoryCache := map[], map[], map[];
      processed, hidden := {}, {};
      postHashed, probed, encSource := [], [], map[];
    }

    /** Every label the category cache holds is a key of `categoryMap`. */
    lemma CachedCategoriesAreKnown(e: string)
      requires Valid() && e in encToCategoryCache
      ensures IsCategory(encToCategoryCache[e])
    {
      EncCacheHoldsCategories(encToCategoryCache, encSource, hash, e);
    }

    /** `processInsertedFeedUnit`: ORGANIC is left alone, SPONSORED is hidden, any other category
        only when configured. */
    method ProcessInsertedFeedUnit(feedUnit: nat, category: string)
      modifies this`hidden
      ensures hidden == HiddenAfter(old(hidden), feedUnit, category, hideSet)
    {
      match category
      case "ORGANIC" =>
      case "SPONSORED" =>
        hidden := hidden + {feedUnit};
      case _ =>
        if category in hideSet {
          hidden := hidden + {feedUnit};
        }
    }

    /** `fromObfuscatedCategory`: a cached `enc` is answered from the cache alone; otherwise the
        probes for each table entry are tried in order, no post id and no (digest, id) pair
        hashed twice over the object's lifetime, and a match is recorded. A failed resolution is not cached. */
    method FromObfuscatedCategory(node: nat, enc: string, postId: string) returns (ctx: Option<Context>)
      requires Valid()
      modifies this`postHashCache, this`encProbeCache, this`encToCategoryCache,
               this`postHashed, this`probed, this`encSource
      ensures Valid()
      ensures ctx == (match Resolution(old(encToCategoryCache), hash, enc, postId)
                      case None => None
                      case Some(g) => Some(Context(node, g)))
      ensures Memos() == MemoAfter(old(Memos()), hash, enc, postId)
      ensures enc in old(encToCategoryCache) ==> postHashed == old(postHashed) && probed == old(probed)
      ensures old(postHashed) <= postHashed && old(probed) <= probed
    {
      if enc in encToCategoryCache {
        return Some(Context(node, encToCategoryCache[enc]));
      }
      var b := PostDigest(postId);
      ctx := TryProbes(node, enc, postId, b);
    }

    /** `b`, the digest of the post id: read from the post cache, or computed and cached when it
        is missing. */
    method PostDigest(postId: string) returns (b: string)
      requires Valid()
      modifies this`postHashCache, this`postHashed
      ensures Valid()
      ensures b == hash(postId)
      ensures postHashCache == old(postHashCache)[postId := b]
      ensures old(postHashed) <= postHashed
    {
      b := if postId in postHashCache then postHashCache[postId] else "";
      if b == "" {
        b := hash(postId);
        LogAppend(postHashed, postHashCache, postId, b);
        postHashCache := postHashCache[postId := b];
        postHashed := postHashed + [postId];
      } else {
        UpdateSame(postHashCache, postId, b);
      }
    }

    /** The probes for digest `b`, tried in table order; the first match is recorded in the
        category cache and handed back with the node. */
    method TryProbes(node: nat, enc: string, postId: string, b: string) returns (ctx: Option<Context>)
      requires Valid() && b == hash(postId) && enc !in encToCategoryCache
      modifies this`encProbeCache, this`encToCategoryCache, this`probed, this`encSource
      ensures Valid()
      ensures ctx == (match ResolveLabel(hash, enc, postId)
                      case None => None
                      case Some(g) => Some(Context(node, g)))
      ensures encProbeCache == ProbesOver(old(encProbeCache), hash, b, Tried(hash, b, enc))
      ensures encToCategoryCache == (match ResolveLabel(hash, enc, postId)
                                     case None => old(encToCategoryCache)
                                     case Some(g) => old(encToCategoryCache)[enc := g])
      ensures old(probed) <= probed
    {
      var j := ScanProbes(b, enc);
      if j.Some? {
        var g := CategoryMap[j.value].0;
        EncCacheOkAdd(encToCategoryCache, encSource, hash, enc, postId, g);
        encToCategoryCache := encToCategoryCache[enc := g];
        encSource := encSource[enc := postId];
        return Some(Context(node, g));
      }
      return None;
    }

    /** The loop of `fromObfuscatedCategory` over the table, for post digest `b`: each probe is
        read from the cache or computed and cached, and the loop stops at the first one that
        equals `enc`, whose table position it returns. */
    method ScanProbes(b: string, enc: string) returns (j: Option<nat>)
      requires Valid()
      modifies this`encProbeCache, this`probed
      ensures Valid()
      ensures j == FirstMatch(hash, b, enc, 0)
      ensures encProbeCache == ProbesOver(old(encProbeCache), hash, b, Tried(hash, b, enc))
      ensures old(probed) <= probed
    {
      ghost var probesBefore := encProbeCache;
      CategoryIdsArePositions();
      for i := 0 to |CategoryMap|
        invariant Valid()
        invariant FirstMatch(hash, b, enc, 0) == FirstMatch(hash, b, enc, i)
        invariant encProbeCache == ProbesOver(probesBefore, hash, b, i)
        invariant old(probed) <= probed
      {
        var id := CategoryMap[i].1;
        var probe := CachedProbe(b, id, probesBefore);
        if probe == enc {
          MatchAt(hash, b, enc, i);
          return Some(i);
        }
      }
      NoMatch(hash, b, enc);
      return None;
    }

    /** One round of that loop: the probe `sha256(b + id)` for table entry `id`, read from the
        probe cache, or computed and cached when it is missing. */
    method CachedProbe(b: string, id: nat, ghost before: map<string, string>) returns (probe: string)
      requires Valid() && id < CategoryCount && encProbeCache == ProbesOver(before, hash, b, id)
      modifies this`encProbeCache, this`probed
      ensures Valid()
      ensures probe == Probe(hash, b, id)
      ensures encProbeCache == ProbesOver(before, hash, b, id + 1)
      ensures old(probed) <= probed
    {
      var key := ProbeKey(b, id);
      probe := if key in encProbeCache then encProbeCache[key] else "";
      ProbeCached(encProbeCache, hash, b, id, before);
      if probe == "" {
        probe := hash(b + Decimal(id));
        ProbeComputed(encProbeCache, probed, hash, b, id, before);
        encProbeCache := encProbeCache[key := probe];
        probed := probed + [key];
      }
    }

    /** `processInsertedFeedUnit(node, g)` followed by `processed.add(node)`. */
    method DispatchUnit(handle: nat, g: string)
      requires Valid()
      modifies this`processed, this`hidden
      ensures Valid()
      ensures processed == old(processed) + {handle}
      ensures hidden == HiddenAfter(old(hidden), handle, g, hideSet)
    {
      ProcessInsertedFeedUnit(handle, g);
      processed := processed + {handle};
    }

    /** The obfuscated branch: resolve, and dispatch the node only when a label comes back that
        passes `in categoryMap`. */
    method ResolveThenDispatch(handle: nat, enc: string, postId: string)
      requires Valid()
      modifies this`postHashCache, this`encProbeCache, this`encToCategoryCache, this`processed,
               this`hidden, this`postHashed, this`probed, this`encSource
      ensures Valid()
      ensures match Dispatched(Resolve(enc, postId), old(encToCategoryCache), hash)
              case None => processed == old(processed) && hidden == old(hidden)
              case Some(g) => processed == old(processed) + {handle} &&
                              hidden == HiddenAfter(old(hidden), handle, g, hideSet)
      ensures Memos() == MemoAfter(old(Memos()), hash, enc, postId)
      ensures enc in old(encToCategoryCache) ==> postHashed == old(postHashed) && probed == old(probed)
    {
      ResolutionIsCategory(encToCategoryCache, encSource, hash, enc, postId);
      var ctx := FromObfuscatedCategory(handle, enc, postId);
      if ctx.Some? && InCategoryMap(ctx.value.category) {
        DispatchUnit(ctx.value.node, ctx.value.category);
      }
    }

    /** `checkWhetherFeedUnit`: a div not yet processed whose props lead to a feed unit with a
        category is dispatched and marked processed; an obfuscated category is resolved first
        (and the node is left unmarked when nothing matches); every other node changes nothing. */
    method CheckWhetherFeedUnit(node: Element)
      requires Valid()
      modifies this`postHashCache, this`encProbeCache, this`encToCategoryCache, this`processed,
               this`hidden, this`postHashed, this`probed, this`encSource
      ensures Valid()
      ensures match Dispatched(Decide(node, old(processed)), old(encToCategoryCache), hash)
              case None => processed == old(processed) && hidden == old(hidden)
              case Some(g) => processed == old(processed) + {node.handle} &&
                              hidden == HiddenAfter(old(hidden), node.handle, g, hideSet)
      ensures Memos() == MemoAfterStep(Decide(node, old(processed)), old(Memos()), hash)
      ensures !(Decide(node, old(processed)).Resolve? && Decide(node, old(processed)).enc !in old(encToCategoryCache)) ==>
                postHashed == old(postHashed) && probed == old(probed)
    {
      if !node.isDiv { return; }
      if node.handle in processed { return; }
      var step := RouteProps(node.own);
      match step
      case Ignore =>
      case Dispatch(g) =>
        DispatchUnit(node.handle, g);
      case Resolve(enc, postId) =>
        ResolveThenDispatch(node.handle, enc, postId);
    }
  }
}
