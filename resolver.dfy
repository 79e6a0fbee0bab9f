/** The digest probes `fromObfuscatedCategory` tries, and the consistency of the three memo
    maps it keeps. The digest function `H` (SHA-256 written in hex) is a parameter: any
    deterministic function from strings to non-empty strings. */
module Resolver {
  import opened Categories
  import opened Options

  /** The probe for table entry `i`: `H(b + id)`, the digest of the post digest followed by the
      decimal id, which is the entry's position (`CategoryIdsArePositions`). */
  function Probe(hash: string -> string, b: string, i: nat): string
  {
    hash(b + Decimal(i))
  }

  /** The first position from `i` on, below `n`, whose probe equals `enc`. */
  function FirstAt(probe: nat -> string, enc: string, i: nat, n: nat): (r: Option<nat>)
    requires i <= n
    ensures r.Some? ==> i <= r.value < n && probe(r.value) == enc
    decreases n - i
  {
    if i == n then None
    else if probe(i) == enc then Some(i)
    else FirstAt(probe, enc, i + 1, n)
  }

  /** No probe before the first match, or anywhere from `i` on when there is none, equals `enc`. */
  lemma {:induction false} NothingBeforeFirst(probe: nat -> string, enc: string, i: nat, n: nat)
    requires i <= n
    ensures forall k :: i <= k < n && (FirstAt(probe, enc, i, n).None? || k < FirstAt(probe, enc, i, n).value) ==>
              probe(k) != enc
    decreases n - i
  {
    if i < n && probe(i) != enc {
      NothingBeforeFirst(probe, enc, i + 1, n);
    }
  }

  /** The probes for post digest `b`, by table position. */
  function ProbesFor(hash: string -> string, b: string): nat -> string
  {
    (i: nat) => Probe(hash, b, i)
  }

  /** The first table position at or after `i` whose probe equals `enc`. */
  function FirstMatch(hash: string -> string, b: string, enc: string, i: nat): (r: Option<nat>)
    requires i <= CategoryCount
    ensures r.Some? ==> i <= r.value < CategoryCount && Probe(hash, b, r.value) == enc
  {
    FirstAt(ProbesFor(hash, b), enc, i, CategoryCount)
  }

  /** `FirstMatch` finds a matching position with no match before it, and finds nothing only
      when no probe from `i` on matches. */
  lemma FirstMatchIsFirst(hash: string -> string, b: string, enc: string, i: nat)
    requires i <= CategoryCount
    ensures FirstMatch(hash, b, enc, i).Some? ==>
              forall k :: i <= k < FirstMatch(hash, b, enc, i).value ==> Probe(hash, b, k) != enc
    ensures FirstMatch(hash, b, enc, i).None? <==>
              forall k :: i <= k < CategoryCount ==> Probe(hash, b, k) != enc
  {
    var probe := ProbesFor(hash, b);
    NothingBeforeFirst(probe, enc, i, CategoryCount);
    forall k: nat ensures probe(k) == Probe(hash, b, k) {
    }
  }

  /** The label the resolver derives from scratch: the first label, in table order, whose probe
      for the digest of `postId` equals `enc`. */
  function ResolveLabel(hash: string -> string, enc: string, postId: string): Option<string>
  {
    match FirstMatch(hash, hash(postId), enc, 0)
    case None => None
    case Some(j) => Some(CategoryMap[j].0)
  }

  /** A derived label is a table label whose probe matches and which no earlier label beats;
      nothing is derived exactly when no label's probe matches. */
  lemma ResolveLabelIsFirstMatchingLabel(hash: string -> string, enc: string, postId: string)
    ensures ResolveLabel(hash, enc, postId).Some? ==>
              exists j :: 0 <= j < CategoryCount && CategoryMap[j].0 == ResolveLabel(hash, enc, postId).value &&
                Probe(hash, hash(postId), j) == enc &&
                forall k :: 0 <= k < j ==> Probe(hash, hash(postId), k) != enc
    ensures ResolveLabel(hash, enc, postId).None? <==>
              forall k :: 0 <= k < CategoryCount ==> Probe(hash, hash(postId), k) != enc
  {
    FirstMatchIsFirst(hash, hash(postId), enc, 0);
  }

  /** Every derived label is a key of `categoryMap`. */
  lemma ResolvedIsCategory(hash: string -> string, enc: string, postId: string)
    requires ResolveLabel(hash, enc, postId).Some?
    ensures IsCategory(ResolveLabel(hash, enc, postId).value)
  {
    var j := FirstMatch(hash, hash(postId), enc, 0).value;
    InTableIff(CategoryMap[j].0, CategoryMap);
  }

  /** The number of table entries a resolution from scratch tries. */
  function Tried(hash: string -> string, b: string, enc: string): (n: nat)
    ensures n <= CategoryCount
  {
    match FirstMatch(hash, b, enc, 0)
    case None => CategoryCount
    case Some(j) => j + 1
  }

  /** A probe cache after the probes for the first `k` table entries and digest `b` were
      written over it. */
  function ProbesOver(cache: map<string, string>, hash: string -> string, b: string, k: nat): map<string, string>
    requires k <= CategoryCount
  {
    if k == 0 then cache
    else ProbesOver(cache, hash, b, k - 1)[ProbeKey(b, k - 1) := Probe(hash, b, k - 1)]
  }

  /** Writing the probe for entry `i` extends the run by one entry. */
  lemma ProbesAdvance(cache: map<string, string>, hash: string -> string, b: string, i: nat)
    requires i < CategoryCount
    ensures ProbesOver(cache, hash, b, i + 1) ==
            ProbesOver(cache, hash, b, i)[ProbeKey(b, i) := Probe(hash, b, i)]
  {
  }

  /** A probe that matches at `i`, with no match before it, ends the search there. */
  lemma MatchAt(hash: string -> string, b: string, enc: string, i: nat)
    requires i < CategoryCount && FirstMatch(hash, b, enc, 0) == FirstMatch(hash, b, enc, i)
    requires Probe(hash, b, i) == enc
    ensures FirstMatch(hash, b, enc, 0) == Some(i) && Tried(hash, b, enc) == i + 1
  {
  }

  /** A search that reaches the end of the table finds nothing and tries every entry. */
  lemma NoMatch(hash: string -> string, b: string, enc: string)
    requires FirstMatch(hash, b, enc, 0) == FirstMatch(hash, b, enc, CategoryCount)
    ensures FirstMatch(hash, b, enc, 0) == None && Tried(hash, b, enc) == CategoryCount
  {
  }

  lemma UpdateSame(m: map<string, string>, k: string, v: string)
    requires k in m && m[k] == v
    ensures m[k := v] == m
  {
  }

  // The three cache invariants.

  /** Every `postHashCache[p]` is `H(p)`. */
  ghost predicate PostCacheOk(cache: map<string, string>, hash: string -> string)
  {
    forall p :: p in cache ==> cache[p] == hash(p)
  }

  /** Every `encProbeCache[b + '|' + id]` is `H(b + id)`. */
  ghost predicate ProbeCacheOk(cache: map<string, string>, hash: string -> string)
  {
    forall b, id :: ProbeKey(b, id) in cache ==> cache[ProbeKey(b, id)] == hash(b + Decimal(id))
  }

  /** Every `encToCategoryCache[e]` is the label derived for `e` from the post recorded in `source`. */
  ghost predicate EncCacheOk(cache: map<string, string>, source: map<string, string>, hash: string -> string)
  {
    forall e :: e in cache ==> e in source && ResolveLabel(hash, e, source[e]) == Some(cache[e])
  }

  lemma ProbeCacheOkUpdate(cache: map<string, string>, hash: string -> string, b: string, id: nat)
    requires ProbeCacheOk(cache, hash)
    ensures ProbeCacheOk(cache[ProbeKey(b, id) := hash(b + Decimal(id))], hash)
  {
    var updated := cache[ProbeKey(b, id) := hash(b + Decimal(id))];
    forall b', id' | ProbeKey(b', id') in updated
      ensures updated[ProbeKey(b', id')] == hash(b' + Decimal(id'))
    {
      if ProbeKey(b', id') == ProbeKey(b, id) {
        ProbeKeyInjective(b', id', b, id);
      }
    }
  }

  /** A consistent probe cache agrees with every probe it already holds, so adding a run of
      fresh probes over it loses nothing. */
  lemma ProbeCacheAgrees(cache: map<string, string>, hash: string -> string, b: string, i: nat)
    requires ProbeCacheOk(cache, hash) && i < CategoryCount
    requires ProbeKey(b, i) in cache
    ensures cache[ProbeKey(b, i)] == Probe(hash, b, i)
  {
  }

  /** Recording a label derived from scratch keeps the category cache consistent. */
  lemma EncCacheOkAdd(cache: map<string, string>, source: map<string, string>, hash: string -> string,
                      enc: string, postId: string, g: string)
    requires EncCacheOk(cache, source, hash) && ResolveLabel(hash, enc, postId) == Some(g)
    ensures EncCacheOk(cache[enc := g], source[enc := postId], hash)
  {
  }

  /** A probe already in a consistent cache is the one the table entry asks for, so the run of
      written probes extends by it unchanged. */
  lemma ProbeCached(cache: map<string, string>, hash: string -> string, b: string, i: nat, before: map<string, string>)
    requires i < CategoryCount && (forall s :: hash(s) != "")
    requires ProbeCacheOk(cache, hash) && cache == ProbesOver(before, hash, b, i)
    ensures ProbeKey(b, i) in cache ==>
              cache[ProbeKey(b, i)] == Probe(hash, b, i) != "" &&
              cache == ProbesOver(before, hash, b, i + 1)
  {
    var key := ProbeKey(b, i);
    if key in cache {
      ProbesAdvance(before, hash, b, i);
      UpdateSame(cache, key, Probe(hash, b, i));
    }
  }

  /** Computing and caching a missing probe keeps the cache and its log consistent and extends
      the run of written probes. */
  lemma ProbeComputed(cache: map<string, string>, log: seq<string>, hash: string -> string, b: string, i: nat,
                      before: map<string, string>)
    requires i < CategoryCount
    requires ProbeCacheOk(cache, hash) && LogMatches(log, cache) && cache == ProbesOver(before, hash, b, i)
    requires ProbeKey(b, i) !in cache
    ensures ProbeCacheOk(cache[ProbeKey(b, i) := Probe(hash, b, i)], hash)
    ensures LogMatches(log + [ProbeKey(b, i)], cache[ProbeKey(b, i) := Probe(hash, b, i)])
    ensures cache[ProbeKey(b, i) := Probe(hash, b, i)] == ProbesOver(before, hash, b, i + 1)
  {
    ProbeCacheOkUpdate(cache, hash, b, i);
    LogAppend(log, cache, ProbeKey(b, i), Probe(hash, b, i));
    ProbesAdvance(before, hash, b, i);
  }

  /** Every label held by a consistent category cache is a key of `categoryMap`. */
  lemma EncCacheHoldsCategories(cache: map<string, string>, source: map<string, string>, hash: string -> string, e: string)
    requires EncCacheOk(cache, source, hash) && e in cache
    ensures IsCategory(cache[e])
  {
    ResolvedIsCategory(hash, e, source[e]);
  }

  /** No element repeats. */
  ghost predicate NoDuplicates(s: seq<string>)
  {
    forall i, j :: 0 <= i < j < |s| ==> s[i] != s[j]
  }

  /** A log of the inputs hashed, each hashed once, that matches a cache's keys. */
  ghost predicate LogMatches(log: seq<string>, cache: map<string, string>)
  {
    NoDuplicates(log) && forall k :: k in log <==> k in cache
  }

  lemma LogAppend(log: seq<string>, cache: map<string, string>, k: string, v: string)
    requires LogMatches(log, cache) && k !in cache
    ensures LogMatches(log + [k], cache[k := v])
  {
  }
}
