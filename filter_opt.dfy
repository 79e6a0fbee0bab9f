/** The feed filter of `facebook-feeds-filter-opt.js`, a rewrite of the same script. It keeps
    the same state and runs the same pipeline; three steps are written differently: the
    locator counts the depth down (`d--`) instead of counting levels up, the fallback for
    `down` goes one property deeper and joins the candidates with `||`, and the post digest is
    written back to its cache on every resolution. */
module FeedsFilterOpt {
  import opened JsValues
  import opened Options
  import opened Categories
  import opened LevelOrder
  import opened Locator
  import opened Resolver
  import opened FeedsFilter

  /** The levels the counting-down loop inspects: level 0 always, then one more for each
      `d-- > 0`. */
  function LevelsScanned(depth: int): nat
  {
    if depth <= 0 then 1 else depth + 1
  }

  /** The value this file's `findNestedProperty(obj, test, fn, depth)` returns. */
  function LocateOpt(obj: Value, test: string -> bool, fn: Transform, depth: int): Value
  {
    match Search([obj], Stops(test), NextLevel, LevelsScanned(depth))
    case None => Undefined
    case Some(node) => Apply(fn, HitValue(node, test))
  }

  /** For every depth the filter uses, and every other depth that is not negative, the two
      locators return the same value. */
  lemma LocateOptAgrees(obj: Value, test: string -> bool, fn: Transform, depth: int)
    requires depth >= 0
    ensures LocateOpt(obj, test, fn, depth) == Locate(obj, test, fn, depth)
  {
  }

  /** They differ for a negative depth: this locator still inspects the root, the other one
      inspects nothing. */
  lemma LocateOptNegativeDepth(obj: Value, test: string -> bool, fn: Transform, depth: int)
    requires depth < 0 && Qualifies(obj, test)
    ensures LocateOpt(obj, test, fn, depth) == Apply(fn, HitValue(obj, test))
    ensures Locate(obj, test, fn, depth) == Undefined
  {
    SearchStops([obj], Stops(test), NextLevel, 1);
  }

  /** The loop of this file's `findNestedProperty`: the queue is worked level by level and the
      loop breaks after the level on which the counter, tested before it is decremented, is no
      longer positive. */
  method FindNestedPropertyOpt(obj: Value, test: string -> bool, fn: Transform, depth: int) returns (r: Value)
    ensures r == LocateOpt(obj, test, fn, depth)
  {
    ghost var stop := Stops(test);
    ghost var target := Search([obj], stop, NextLevel, LevelsScanned(depth));
    var queue := [obj];
    var d := depth;
    ghost var n := LevelsScanned(d);
    while queue != []
      invariant if d <= 0 then n == 1 else n == d + 1
      invariant Search(queue, stop, NextLevel, n) == target
      decreases n
    {
      var stopped, found, next := ScanQueueLevel(queue, test, fn);
      if stopped {
        SearchStops(queue, stop, NextLevel, n);
        return found;
      }
      SearchPasses(queue, stop, NextLevel, n);
      queue := next;
      var last := d <= 0;
      d := d - 1;
      n := n - 1;
      if last {
        break;
      }
    }
    r := Undefined;
  }

  /** `a || b`. */
  function Or(a: Value, b: Value): Value
  {
    if Truthy(a) then a else b
  }

  /** The sub-object the search starts from: the deep path when it is truthy, otherwise
      `o.children?.props?.children || o.props || o`. */
  function DownOpt(o: Value): Value
  {
    var deep := DeepProps(o);
    if Truthy(deep) then deep
    else Or(Or(Get(Get(Get(o, "children"), "props"), "children"), Get(o, "props")), o)
  }

  /** The fallback ends in `|| o`, so for a truthy props bag `down` is never falsy and the
      `if (!down) return` after it never fires. */
  lemma DownOptTruthy(o: Value)
    requires Truthy(o)
    ensures Truthy(DownOpt(o))
  {
  }

  /** Where the deep path is truthy both files start from it. */
  lemma DownsAgreeOnDeepPath(o: Value)
    requires Truthy(DeepProps(o))
    ensures DownOpt(o) == Down(o)
  {
  }

  /** Where it is not, they can part: when `o.children.props` is an object without a truthy
      `children` and `o.props` is falsy, the other file starts from `o.children.props` and this
      one from `o` itself. */
  lemma DownsDiffer(o: Value)
    requires !Truthy(DeepProps(o)) && !Truthy(Get(o, "props")) && Truthy(o)
    requires Get(Get(o, "children"), "props").Obj?
    requires !Truthy(Get(Get(Get(o, "children"), "props"), "children"))
    ensures Down(o) == Get(Get(o, "children"), "props")
    ensures DownOpt(o) == o
  {
  }

  /** And an empty-string `o.children.props` stops the other file's pipeline, not this one's. */
  lemma DownEmptyChildProps(o: Value)
    requires Truthy(o) && !Truthy(DeepProps(o)) && Get(Get(o, "children"), "props") == Prim("")
    ensures !Truthy(Down(o)) && Truthy(DownOpt(o))
  {
  }

  /** The decision for a located `feed` object, with this file's locator. */
  function ClassifyOpt(feed: Value): Step
  {
    if !Truthy(feed) then Ignore
    else
      var plain := LocateOpt(feed, KeyTest(Category), Identity, 0);
      if Truthy(plain) && Known(plain) then Dispatch(plain.text)
      else
        var enc := LocateOpt(feed, KeyTest(CatSens), Within(KeyTest(Enc)), 0);
        var postId := LocateOpt(feed, KeyTest(PostId), Identity, 2);
        if Truthy(enc) && Truthy(postId) then
          if enc.Prim? && postId.Prim? then Resolve(enc.text, postId.text) else Ignore
        else if !Truthy(enc) then
          var cat2 := LocateOpt(feed, KeyTest(CatSens), Within(KeyTest(Cat)), 0);
          if Truthy(cat2) && Known(cat2) then Dispatch(cat2.text) else Ignore
        else Ignore
  }

  /** Below the `feed` object the two files decide alike. */
  lemma ClassifyOptIsClassify(feed: Value)
    ensures ClassifyOpt(feed) == Classify(feed)
  {
    LocateOptAgrees(feed, KeyTest(Category), Identity, 0);
    LocateOptAgrees(feed, KeyTest(CatSens), Within(KeyTest(Enc)), 0);
    LocateOptAgrees(feed, KeyTest(PostId), Identity, 2);
    LocateOptAgrees(feed, KeyTest(CatSens), Within(KeyTest(Cat)), 0);
  }

  /** The decision for a node's own properties, with this file's `down` and locator. */
  function RouteOpt(own: seq<(string, Value)>): Step
  {
    var o := ExtractReactProps(own);
    if !Truthy(o) then Ignore
    else
      var down := DownOpt(o);
      if !Truthy(down) then Ignore
      else ClassifyOpt(LocateOpt(down, KeyTest(Feed), Identity, 4))
  }

  /** The two files route a node alike whenever the deep path of its props bag is truthy. */
  lemma RouteOptAgrees(own: seq<(string, Value)>)
    requires Truthy(DeepProps(ExtractReactProps(own)))
    ensures RouteOpt(own) == Route(own)
  {
    var o := ExtractReactProps(own);
    if Truthy(o) {
      var down := Down(o);
      LocateOptAgrees(down, KeyTest(Feed), Identity, 4);
      ClassifyOptIsClassify(Locate(down, KeyTest(Feed), Identity, 4));
    }
  }

  /** What this file's pipeline does for a node. */
  function DecideOpt(node: Element, processed: set<nat>): Step
  {
    if !node.isDiv || node.handle in processed then Ignore else RouteOpt(node.own)
  }

  /** The searches of `checkWhetherFeedUnit` below the `feed` object. */
  method ClassifyFeedOpt(feed: Value) returns (step: Step)
    ensures step == ClassifyOpt(feed)
  {
    if !Truthy(feed) { return Ignore; }
    var plain := FindNestedPropertyOpt(feed, KeyTest(Category), Identity, 0);
    if Truthy(plain) && Known(plain) {
      return Dispatch(plain.text);
    }
    var enc := FindNestedPropertyOpt(feed, KeyTest(CatSens), Within(KeyTest(Enc)), 0);
    var postId := FindNestedPropertyOpt(feed, KeyTest(PostId), Identity, 2);
    if Truthy(enc) && Truthy(postId) {
      if enc.Prim? && postId.Prim? {
        return Resolve(enc.text, postId.text);
      }
      return Ignore;
    }
    step := Ignore;
    if !Truthy(enc) {
      var cat2 := FindNestedPropertyOpt(feed, KeyTest(CatSens), Within(KeyTest(Cat)), 0);
      if Truthy(cat2) && Known(cat2) {
        step := Dispatch(cat2.text);
      }
    }
  }

  /** The searches of `checkWhetherFeedUnit` from the node's own properties to `feed`. */
  method RoutePropsOpt(own: seq<(string, Value)>) returns (step: Step)
    ensures step == RouteOpt(own)
  {
    var o := ExtractReactProps(own);
    if !Truthy(o) { return Ignore; }
    var down := DeepProps(o);
    if !Truthy(down) {
      down := Or(Or(Get(Get(Get(o, "children"), "props"), "children"), Get(o, "props")), o);
    }
    if !Truthy(down) { return Ignore; }
    var feed := FindNestedPropertyOpt(down, KeyTest(Feed), Identity, 4);
    step := ClassifyFeedOpt(feed);
  }

  class FilterOpt {
    /** The digest function `sha256`, as a deterministic function of the message. */
    const hash: string -> string
    /** `setOfCategoriesToHide`. */
    const hideSet: set<string>
    var postHashCache: map<string, string>
    var encProbeCache: map<string, string>
    var encToCategoryCache: map<string, string>
    /** The `processed` guard. */
    var processed: set<nat>
    /** The feed units that carry the hiding class. */
    var hidden: set<nat>
    /** Every post id hashed so far, in order. */
    ghost var postHashed: seq<string>
    /** Every probe key `b|id` whose probe was hashed so far, in order. */
    ghost var probed: seq<string>
    /** For each cached `enc`, the post id whose probes derived its label. */
    ghost var encSource: map<string, string>

    ghost predicate Valid()
      reads this
    {
      StateOk(hash, postHashCache, encProbeCache, encToCategoryCache, encSource, postHashed, probed,
              processed, hidden)
    }

    /** The three memo maps as they stand. */
    function Memos(): Memo
      reads this
    {
      Memo(postHashCache, encProbeCache, encToCategoryCache)
    }

    /** The script's start-up state: the configured set and empty caches. */
    constructor (hash: string -> string, config: string)
      requires forall s :: hash(s) != ""
      ensures Valid()
      ensures this.hash == hash && hideSet == SetOfCategoriesToHide(config)
      ensures postHashCache == map[] && encProbeCache == map[] && encToCategoryCache == map[]
      ensures processed == {} && hidden == {}
    {
      this.hash := hash;
      hideSet := SetOfCategoriesToHide(config);
      postHashCache, encProbeCache, encToCategoryCache := map[], map[], map[];
      processed, hidden := {}, {};
      postHashed, probed, encSource := [], [], map[];
    }

    /** `processInsertedFeedUnit`, the same switch as in the other file. */
    method ProcessInsertedFeedUnit(feedUnit: nat, category: string)
      modifies this`hidden
      ensures hidden == HiddenAfter(old(hidden), feedUnit, category, hideSet)
    {
      match category
      case "ORGANIC" =>
      case "SPONSORED" =>
        hidden := hidden + {feedUnit};
      case _ =>
        if category in hideSet {
          hidden := hidden + {feedUnit};
        }
    }

    /** `fromObfuscatedCategory`: its contract is the other file's word for word, so writing
        the post digest back on every call leaves the same caches. */
    method FromObfuscatedCategory(node: nat, enc: string, postId: string) returns (ctx: Option<Context>)
      requires Valid()
      modifies this`postHashCache, this`encProbeCache, this`encToCategoryCache,
               this`postHashed, this`probed, this`encSource
      ensures Valid()
      ensures ctx == (match Resolution(old(encToCategoryCache), hash, enc, postId)
                      case None => None
                      case Some(g) => Some(Context(node, g)))
      ensures Memos() == MemoAfter(old(Memos()), hash, enc, postId)
      ensures enc in old(encToCategoryCache) ==> postHashed == old(postHashed) && probed == old(probed)
      ensures old(postHashed) <= postHashed && old(probed) <= probed
    {
      if enc in encToCategoryCache {
        return Some(Context(node, encToCategoryCache[enc]));
      }
      var b := PostDigest(postId);
      ctx := TryProbes(node, enc, postId, b);
    }

    /** `postHashCache.get(post_id) || sha256(post_id)`, then written back unconditionally. */
    method PostDigest(postId: string) returns (b: string)
      requires Valid()
      modifies this`postHashCache, this`postHashed
      ensures Valid()
      ensures b == hash(postId)
      ensures postHashCache == old(postHashCache)[postId := b]
      ensures old(postHashed) <= postHashed
    {
      var cached := if postId in postHashCache then postHashCache[postId] else "";
      b := if cached != "" then cached else hash(postId);
      if cached == "" {
        LogAppend(postHashed, postHashCache, postId, b);
        postHashed := postHashed + [postId];
      }
      postHashCache := postHashCache[postId := b];
    }

    /** The probes for digest `b`, tried in table order; the first match is recorded. */
    method TryProbes(node: nat, enc: string, postId: string, b: string) returns (ctx: Option<Context>)
      requires Valid() && b == hash(postId) && enc !in encToCategoryCache
      modifies this`encProbeCache, this`encToCategoryCache, this`probed, this`encSource
      ensures Valid()
      ensures ctx == (match ResolveLabel(hash, enc, postId)
                      case None => None
                      case Some(g) => Some(Context(node, g)))
      ensures encProbeCache == ProbesOver(old(encProbeCache), hash, b, Tried(hash, b, enc))
      ensures encToCategoryCache == (match ResolveLabel(hash, enc, postId)
                                     case None => old(encToCategoryCache)
                                     case Some(g) => old(encToCategoryCache)[enc := g])
      ensures old(probed) <= probed
    {
      var j := ScanProbes(b, enc);
      if j.Some? {
        var g := CategoryMap[j.value].0;
        EncCacheOkAdd(encToCategoryCache, encSource, hash, enc, postId, g);
        encToCategoryCache := encToCategoryCache[enc := g];
        encSource := encSource[enc := postId];
        return Some(Context(node, g));
      }
      return None;
    }

    /** The loop over the table for post digest `b`, stopping at the first probe equal to `enc`. */
    method ScanProbes(b: string, enc: string) returns (j: Option<nat>)
      requires Valid()
      modifies this`encProbeCache, this`probed
      ensures Valid()
      ensures j == FirstMatch(hash, b, enc, 0)
      ensures encProbeCache == ProbesOver(old(encProbeCache), hash, b, Tried(hash, b, enc))
      ensures old(probed) <= probed
    {
      ghost var probesBefore := encProbeCache;
      CategoryIdsArePositions();
      for i := 0 to |CategoryMap|
        invariant Valid()
        invariant FirstMatch(hash, b, enc, 0) == FirstMatch(hash, b, enc, i)
        invariant encProbeCache == ProbesOver(probesBefore, hash, b, i)
        invariant old(probed) <= probed
      {
        var id := CategoryMap[i].1;
        var probe := CachedProbe(b, id, probesBefore);
        if probe == enc {
          MatchAt(hash, b, enc, i);
          return Some(i);
        }
      }
      NoMatch(hash, b, enc);
      return None;
    }

    /** One round of that loop: `sha256(b.concat(id))`, read from the probe cache or computed
        and cached. */
    method CachedProbe(b: string, id: nat, ghost before: map<string, string>) returns (probe: string)
      requires Valid() && id < CategoryCount && encProbeCache == ProbesOver(before, hash, b, id)
      modifies this`encProbeCache, this`probed
      ensures Valid()
      ensures probe == Probe(hash, b, id)
      ensures encProbeCache == ProbesOver(before, hash, b, id + 1)
      ensures old(probed) <= probed
    {
      var key := ProbeKey(b, id);
      probe := if key in encProbeCache then encProbeCache[key] else "";
      ProbeCached(encProbeCache, hash, b, id, before);
      if probe == "" {
        probe := hash(b + Decimal(id));
        ProbeComputed(encProbeCache, probed, hash, b, id, before);
        encProbeCache := encProbeCache[key := probe];
        probed := probed + [key];
      }
    }

    /** `processInsertedFeedUnit(node, g)` followed by `processed.add(node)`. */
    method DispatchUnit(handle: nat, g: string)
      requires Valid()
      modifies this`processed, this`hidden
      ensures Valid()
      ensures processed == old(processed) + {handle}
      ensures hidden == HiddenAfter(old(hidden), handle, g, hideSet)
    {
      ProcessInsertedFeedUnit(handle, g);
      processed := processed + {handle};
    }

    /** The obfuscated branch: resolve, and dispatch when the label passes `in categoryMap`. */
    method ResolveThenDispatch(handle: nat, enc: string, postId: string)
      requires Valid()
      modifies this`postHashCache, this`encProbeCache, this`encToCategoryCache, this`processed,
               this`hidden, this`postHashed, this`probed, this`encSource
      ensures Valid()
      ensures match Dispatched(Resolve(enc, postId), old(encToCategoryCache), hash)
              case None => processed == old(processed) && hidden == old(hidden)
              case Some(g) => processed == old(processed) + {handle} &&
                              hidden == HiddenAfter(old(hidden), handle, g, hideSet)
      ensures Memos() == MemoAfter(old(Memos()), hash, enc, postId)
      ensures enc in old(encToCategoryCache) ==> postHashed == old(postHashed) && probed == old(probed)
    {
      ResolutionIsCategory(encToCategoryCache, encSource, hash, enc, postId);
      var ctx := FromObfuscatedCategory(handle, enc, postId);
      if ctx.Some? && InCategoryMap(ctx.value.category) {
        DispatchUnit(ctx.value.node, ctx.value.category);
      }
    }

    /** `checkWhetherFeedUnit`, with this file's `down` and locator. */
    method CheckWhetherFeedUnit(node: Element)
      requires Valid()
      modifies this`postHashCache, this`encProbeCache, this`encToCategoryCache, this`processed,
               this`hidden, this`postHashed, this`probed, this`encSource
      ensures Valid()
      ensures match Dispatched(DecideOpt(node, old(processed)), old(encToCategoryCache), hash)
              case None => processed == old(processed) && hidden == old(hidden)
              case Some(g) => processed == old(processed) + {node.handle} &&
                              hidden == HiddenAfter(old(hidden), node.handle, g, hideSet)
      ensures Memos() == MemoAfterStep(DecideOpt(node, old(processed)), old(Memos()), hash)
      ensures !(DecideOpt(node, old(processed)).Resolve? && DecideOpt(node, old(processed)).enc !in old(encToCategoryCache)) ==>
                postHashed == old(postHashed) && probed == old(probed)
    {
      if !node.isDiv { return; }
      if node.handle in processed { return; }
      var step := RoutePropsOpt(node.own);
      match step
      case Ignore =>
      case Dispatch(g) =>
        DispatchUnit(node.handle, g);
      case Resolve(enc, postId) =>
        ResolveThenDispatch(node.handle, enc, postId);
    }
  }
}
