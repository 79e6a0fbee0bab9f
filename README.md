# facebook-feeds-filter, modelled in Dafny

The script hides feed units on Facebook pages. A `MutationObserver` hands every inserted
`<div>` to `checkWhetherFeedUnit`. That function does four things in turn:

1. It takes the React props bag of the node, stored under the one own key that starts with
   `__reactProps`.
2. It walks down to a sub-object `down` and searches it breadth-first for a `feed` object.
3. It reads the feed unit's category from that object. The category is either plain text
   under a key matching `/category/`, or obfuscated. An obfuscated category is an `enc`
   digest inside the key matching `/cat.*[sS]ens/`, to be matched against SHA-256 probes
   built from the `post_id`.
4. It dispatches the category to `processInsertedFeedUnit`:
   - ORGANIC is left visible;
   - SPONSORED is hidden;
   - any other category is hidden when the user configured it.

Three memo maps make every digest a one-time cost:
- `postHashCache` maps a post id to its digest;
- `encProbeCache` maps `b|id` to a probe;
- `encToCategoryCache` maps an `enc` to its label.

A `processed` set keeps a dispatched node from being handled twice.

The repository has two versions of the script:
- `facebook-feeds-filter.js`;
- `facebook-feeds-filter-opt.js`, a rewrite.

Each is modelled in its own module, and the two are related by lemmas. The rewrite differs in
three places:
- Its locator counts the depth down (`d--`). It agrees with the other file for every depth
  that is not negative, and differs below that (`LocateOptAgrees`, `LocateOptNegativeDepth`).
- Its fallback for `down` is `o.children?.props?.children || o.props || o`, where the other
  file has `o.children?.props ?? o.props ?? o`. The two agree whenever the long props path is
  truthy, and can differ otherwise (`DownsDiffer`, `DownEmptyChildProps`).
- It writes the post digest back on every resolution. Its `FromObfuscatedCategory` carries
  the other file's contract word for word, so the result is the same.

Modules:
- `JsValues` (`values.dfy`): component-state values, key filters and key-name patterns.
- `Options` (`options.dfy`): the shared `Option` type.
- `LevelOrder` (`levelorder.dfy`): a level-order search over any node type, with its lemmas
  proved once.
- `Locator` (`locator.dfy`): `findNestedProperty`.
- `Categories` (`categories.dfy`): the category table, the configuration string and the hide
  decision.
- `Resolver` (`resolver.dfy`): the probe order and the cache invariants.
- `FeedsFilter` (`filter.dfy`): the state and the pipeline of the first file.
- `FeedsFilterOpt` (`filter_opt.dfy`): the state and the pipeline of the rewrite.

How the model stands in for the running script:
- The digest function is a class constant `hash`. It may be any deterministic function with
  non-empty output.
- A DOM node is an `Element`: a handle, a div flag and its own properties.
- The class the script adds to hidden units becomes membership in the `hidden` set.

The state invariant (`StateOk`) says five things:
- every cache entry holds what its key asks for;
- ghost logs of the hashed post ids and of the probe keys `b|id` match the cache keys without
  repeats, so no post id and no (digest, id) pair is hashed twice over the object's lifetime;
- every cached label was derived from the post recorded for it;
- every hidden unit was processed;
- every digest is non-empty.

`x in categoryMap` is also true for the names every object inherits from `Object.prototype`.
So a plain category such as `"toString"` marks a node as processed, but it is never hidden,
because every configured name is upper-cased (`InheritedNeverHidden`).

## Model

| member | source | states |
|---|---|---|
| Locator.FindNestedProperty | facebook-feeds-filter.js:49-67 | the loop returns the value of the breadth-first search `Locate`, over the levels 0 to `depth` |
| Locator.ScanQueueLevel | facebook-feeds-filter.js:55-63 | the inner loop stops exactly when the level holds a node with one matching key. It then returns `fn` of the first such node's value; otherwise it leaves the whole next level in the queue |
| Locator.PushObjects | facebook-feeds-filter.js:62 | the object-valued properties of a node are appended in key order, and only those |
| Locator.LocateFindsFirstHit | facebook-feeds-filter.js:49-67 | the locator returns `fn` of the value under the unique matching key of the first qualifying node, in level order and key order within `depth` levels |
| Locator.LocateMisses | facebook-feeds-filter.js:53-66 | with no qualifying node in levels 0 to `depth`, the locator returns undefined |
| Locator.LocateDepthZero | facebook-feeds-filter.js:53-61 | with depth 0 only the root's own keys are tested |
| Locator.WithinIsLocate | facebook-feeds-filter.js:114 | the nested transform `x => findNestedProperty(x, /enc/, y => y, 0)` is the locator run on `x` with depth 0 |
| Locator.QualifiesIsUniqueKey | facebook-feeds-filter.js:58-60 | a node stops the search if and only if exactly one of its keys matches; the value handed on is the value under that key |
| Locator.TwoMatchesPassOver | facebook-feeds-filter.js:58-59 | a node with two matching keys never stops the search |
| LevelOrder.Hit | facebook-feeds-filter.js:53-65 | a level-order search returns the first stopping node of the first level that has one, if that level is searched |
| LevelOrder.Miss | facebook-feeds-filter.js:53-66 | a search whose levels hold no stopping node finds nothing |
| LevelOrder.SearchIsSearchFrom | facebook-feeds-filter.js:53 | leaving the loop when the queue is empty changes nothing |
| JsValues.FilterKeysSingle | facebook-feeds-filter.js:58-59 | a key filter keeps exactly the one entry whose key alone passes the test |
| JsValues.FilterKeysOneIsUnique | facebook-feeds-filter.js:58-59 | a filter that keeps one entry found a unique key |
| FeedsFilter.ExtractReactPropsUnique | facebook-feeds-filter.js:81-85 | the props bag is the value under the unique `__reactProps` key; it is null when there is none or more than one |
| FeedsFilter.RouteNeedsReactProps | facebook-feeds-filter.js:91-92 | a node without exactly one `__reactProps` key is left alone |
| FeedsFilter.RouteProps | facebook-feeds-filter.js:91-99 | the walk from the node's properties through `down` to `feed` yields the decision `Route` |
| FeedsFilter.ClassifyFeed | facebook-feeds-filter.js:102-141 | the searches below `feed`, in the source's order, yield the decision `Classify` |
| FeedsFilter.ClassifyPlain | facebook-feeds-filter.js:103-107 | a unique `category` key holding a label dispatches that label, whatever else the feed holds |
| FeedsFilter.PlainNotKnown | facebook-feeds-filter.js:103-104 | a feed none of whose `/category/` keys holds a label has no plain category |
| FeedsFilter.TwoCategoryKeysNoPlain | facebook-feeds-filter.js:103-104 | two keys matching `/category/` make the plain search return undefined, whatever they hold |
| FeedsFilter.CategoryBesideSensitiveNoPlain | facebook-feeds-filter.js:103-104 | a feed whose own keys include both `category` and `category_sensitive` never yields a plain category, even when `category` holds a label |
| FeedsFilter.ClassifyResolves | facebook-feeds-filter.js:103-120 | when the plain search yields no category (a `category` key next to `category_sensitive` included), a non-empty `enc` string in the sensitivity object plus a `post_id` within two levels leads to a resolution of that pair |
| FeedsFilter.ClassifyEncWithoutPostId | facebook-feeds-filter.js:103-130 | when the plain search yields no category, an `enc` without a `post_id` within two levels is ignored; the loose `cat` fallback is not tried |
| FeedsFilter.ClassifyFallback | facebook-feeds-filter.js:103-140 | when the plain search yields no category and the sensitivity object has no `enc` key, a unique `cat` key in the sensitivity object holding a label dispatches that label |
| FeedsFilter.DispatchedIsInCategoryMap | facebook-feeds-filter.js:104-140 | every category the pipeline dispatches passes `in categoryMap` |
| FeedsFilter.MemoAfterRecords | facebook-feeds-filter.js:33-45 | after a resolution `enc` is in the category cache exactly when a label was found, under that label; a failure caches nothing, and every other entry is kept |
| FeedsFilter.ResolvedEncIsAnsweredFromCache | facebook-feeds-filter.js:33 | once an `enc` is resolved, a later resolution of it with any post id yields the same label and leaves all three memo maps unchanged |
| FeedsFilter.ResolutionIsCategory | facebook-feeds-filter.js:119-124 | a resolution yields only table labels, so the check `ctx.category in categoryMap` never fails |
| FeedsFilter.Filter.constructor | facebook-feeds-filter.js:3-24 | the start-up state: the configured hide set, empty caches, nothing processed or hidden |
| FeedsFilter.Filter.CachedCategoriesAreKnown | facebook-feeds-filter.js:43 | every label in the category cache is a key of `categoryMap` |
| FeedsFilter.Filter.ProcessInsertedFeedUnit | facebook-feeds-filter.js:69-79 | the unit is hidden exactly as `ShouldHide` says; nothing else changes |
| FeedsFilter.Filter.FromObfuscatedCategory | facebook-feeds-filter.js:32-46 | a cached `enc` is answered from the cache with no digest computed and the ghost logs unchanged. Otherwise: the post digest is cached; exactly the probes of the table entries tried are cached; the first matching label is recorded and returned. The three maps are given by `MemoAfter`. The invariant is kept |
| FeedsFilter.Filter.PostDigest | facebook-feeds-filter.js:35-36 | `b` is the post's digest, computed only when it is not cached |
| FeedsFilter.Filter.TryProbes | facebook-feeds-filter.js:38-45 | the label returned and recorded is the first whose probe equals `enc`. A failure records nothing |
| FeedsFilter.Filter.ScanProbes | facebook-feeds-filter.js:38-44 | the loop stops at the first table position whose probe equals `enc`, and caches the probes up to there |
| FeedsFilter.Filter.CachedProbe | facebook-feeds-filter.js:40-42 | the probe for an entry is `H(b + id)`, read from the cache or computed once and cached |
| FeedsFilter.Filter.DispatchUnit | facebook-feeds-filter.js:105-106 | dispatching marks the node processed and hides it as `ShouldHide` says |
| FeedsFilter.Filter.ResolveThenDispatch | facebook-feeds-filter.js:119-126 | the node is dispatched with the resolved label when there is one, and left unmarked otherwise. The three memo maps end as `MemoAfter` says, and a cached `enc` hashes nothing |
| FeedsFilter.Filter.CheckWhetherFeedUnit | facebook-feeds-filter.js:87-142 | a non-div or processed node changes nothing. Otherwise the node is marked and hidden exactly as the decided category says. The memo maps change only on a resolution, and then as `MemoAfter` says; no digest is computed unless an `enc` not yet cached is resolved. The invariant is kept |
| Resolver.FirstMatchIsFirst | facebook-feeds-filter.js:38-45 | the probe search returns the first matching position; it finds nothing exactly when no probe matches |
| Resolver.ResolveLabelIsFirstMatchingLabel | facebook-feeds-filter.js:38-45 | a derived label is the first label in table order whose probe for the post's digest equals `enc` |
| Resolver.ResolvedIsCategory | facebook-feeds-filter.js:43 | every derived label is a key of `categoryMap` |
| Resolver.ProbeCacheOkUpdate | facebook-feeds-filter.js:40-42 | caching a computed probe keeps every probe-cache entry equal to the digest its key names |
| Resolver.EncCacheOkAdd | facebook-feeds-filter.js:43 | recording a derived label keeps the category cache consistent |
| Resolver.ProbeComputed | facebook-feeds-filter.js:42 | a probe computed for a missing key is hashed once and logged once |
| Categories.ProbeKeyInjective | facebook-feeds-filter.js:40 | the probe-cache key, the digest `b` then a bar then the id, determines both `b` and the id |
| Categories.CategoryIdsArePositions | facebook-feeds-filter.js:9-15 | each id is the label's position in `categoryMap`, and the labels are distinct |
| Categories.IsCategoryIsLabel | facebook-feeds-filter.js:9-14 | the membership test agrees with the table |
| Categories.ParseJoined | facebook-feeds-filter.js:4-7 | a bar-separated list of names configures exactly those names, upper-cased |
| Categories.SplitJoin | facebook-feeds-filter.js:6 | splitting names joined by bars gives the names back |
| Categories.ShouldHide | facebook-feeds-filter.js:69-79 | ORGANIC is never hidden, SPONSORED always is, any other category exactly when configured |
| Categories.EmptyConfigHidesOnlySponsored | facebook-feeds-filter.js:5 | with an empty or unsubstituted argument only SPONSORED is hidden |
| Categories.InheritedNeverHidden | facebook-feeds-filter.js:104-105 | a name inherited from `Object.prototype` passes `in categoryMap`, yet no configuration hides it |
| Categories.ToUpperHasNoLower | facebook-feeds-filter.js:6 | an upper-cased name has no lower-case ASCII letter |
| FeedsFilterOpt.FindNestedPropertyOpt | facebook-feeds-filter-opt.js:61-81 | the counting-down loop returns the level-order search over `LevelsScanned(depth)` levels |
| FeedsFilterOpt.LocateOptAgrees | facebook-feeds-filter-opt.js:61-81 | for every depth that is not negative, this locator returns what the other file's returns |
| FeedsFilterOpt.LocateOptNegativeDepth | facebook-feeds-filter-opt.js:63-78 | for a negative depth this locator still inspects the root, and the other inspects nothing |
| FeedsFilterOpt.DownOptTruthy | facebook-feeds-filter-opt.js:116-121 | for a truthy props bag, `down` is never falsy |
| FeedsFilterOpt.DownsAgreeOnDeepPath | facebook-feeds-filter-opt.js:111-120 | when the long props path is truthy, both files start from it |
| FeedsFilterOpt.DownsDiffer | facebook-feeds-filter-opt.js:116-120 | when `o.children.props` is an object without a truthy `children` and `o.props` is falsy, the other file starts from `o.children.props` and this one from `o` |
| FeedsFilterOpt.DownEmptyChildProps | facebook-feeds-filter-opt.js:116-121 | an empty-string `o.children.props` stops the other file's pipeline but not this one's |
| FeedsFilterOpt.ClassifyOptIsClassify | facebook-feeds-filter-opt.js:126-165 | below the `feed` object the two files decide alike |
| FeedsFilterOpt.RouteOptAgrees | facebook-feeds-filter-opt.js:107-123 | the two files route a node alike whenever its long props path is truthy |
| FeedsFilterOpt.ClassifyFeedOpt | facebook-feeds-filter-opt.js:126-165 | the searches below `feed` yield `ClassifyOpt` |
| FeedsFilterOpt.RoutePropsOpt | facebook-feeds-filter-opt.js:107-123 | the walk from the node's properties to `feed` yields `RouteOpt` |
| FeedsFilterOpt.FilterOpt.constructor | facebook-feeds-filter-opt.js:3-25 | the start-up state: the configured hide set, empty caches, nothing processed or hidden |
| FeedsFilterOpt.FilterOpt.ProcessInsertedFeedUnit | facebook-feeds-filter-opt.js:83-94 | the unit is hidden exactly as `ShouldHide` says |
| FeedsFilterOpt.FilterOpt.FromObfuscatedCategory | facebook-feeds-filter-opt.js:34-58 | the same contract as the other file's resolver: same answer, same caches afterwards |
| FeedsFilterOpt.FilterOpt.PostDigest | facebook-feeds-filter-opt.js:40-41 | writing the digest back on every call leaves the post cache as if it were written only when missing; the digest is computed only when missing |
| FeedsFilterOpt.FilterOpt.TryProbes | facebook-feeds-filter-opt.js:43-57 | the first label whose probe equals `enc` is recorded and returned |
| FeedsFilterOpt.FilterOpt.ScanProbes | facebook-feeds-filter-opt.js:44-56 | the loop stops at the first matching table position, and caches the probes up to there |
| FeedsFilterOpt.FilterOpt.CachedProbe | facebook-feeds-filter-opt.js:46-51 | the probe `sha256(b.concat(id))` is read from the cache or computed once and cached |
| FeedsFilterOpt.FilterOpt.DispatchUnit | facebook-feeds-filter-opt.js:129-130 | dispatching marks the node processed and hides it as `ShouldHide` says |
| FeedsFilterOpt.FilterOpt.ResolveThenDispatch | facebook-feeds-filter-opt.js:143-150 | the node is dispatched with the resolved label when there is one. The three memo maps end as `MemoAfter` says, and a cached `enc` hashes nothing |
| FeedsFilterOpt.FilterOpt.CheckWhetherFeedUnit | facebook-feeds-filter-opt.js:103-166 | the same effect as the other file's pipeline, with this file's decision `DecideOpt`: a node is marked and hidden as the dispatched category says; the memo maps change only on a resolution, and then as `MemoAfter` says; no digest is computed unless an `enc` not yet cached is resolved |

## Left out

- The DOM is not modelled:
  - the `MutationObserver` and `start`;
  - the injected style rule;
  - the `querySelectorAll('div')` walk over inserted subtrees;
  - `beforeunload`.
  The model covers the per-node entry point, `checkWhetherFeedUnit`.
- The hiding class name is built from `Date.now()` and `Math.random()`. The model records only
  which units carry it, as the `hidden` set.
- SHA-256, `TextEncoder` and `crypto.subtle` are not modelled. The digest is a parameter: any
  deterministic function with non-empty output.
- Promises are not modelled. A resolution completes inside `CheckWhetherFeedUnit`. The model
  therefore does not capture a node being examined again while its resolution is still
  pending, nor resolutions that settle out of order.
- The `processed` `WeakSet` is a set of node handles. Garbage collection and object identity
  are not modelled.
- Regular expressions are not run. Each key pattern is the predicate it denotes on key names:
  a substring test, and `cat`, then a run without line terminators, then `sens`/`Sens`.
- `toUpperCase` is modelled for ASCII letters only.
- Truthiness: numbers and booleans are carried as their text, so `0`, `NaN` and `false`
  count as truthy in the model.
- Component-state values are trees. Sharing and cycles are not modelled, and neither are
  function values, which `typeof` does not call objects. The order of `fields` stands for
  the order of `Object.keys`, including the integer-keys-first rule.
- Throwing getters are not modelled. So the `catch` in `findNestedProperty` (turning a throw
  of `fn` into undefined), the `try` around the long props path and the `.catch` on the
  resolution never fire in the model.
- A truthy `enc` or `post_id` that is not a string (an object or an array) leaves the node
  alone in the model. The source would still call the resolver: that warms the caches, and
  the string form of the value takes part in the hashing.
- An array-valued plain category whose string form is a label passes `in categoryMap` in the
  source; the model treats it as unknown.
- `Classify`, `ClassifyOpt`, `Route`, `RouteOpt`, `Decide` and `DecideOpt` are specification
  functions without contracts of their own. Their properties are the `Classify…`, `Route…`
  and `…Agrees` lemmas and the contracts of the methods that compute them.
