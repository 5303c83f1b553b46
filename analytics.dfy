/** The counting parts of `getAnalyticsData` (dist/index.js:450-485): `count(*)` over the
    visitor and page-view tables, and `GROUP BY x ORDER BY count(*) DESC [LIMIT n]`
    over one column. */
module Analytics {
  import opened Common
  import opened Schema
  import Seqs

  // ---------------------------------------------------------------- group by

  /** How often `k` occurs in `keys`. */
  function Occurrences(keys: seq<string>, k: string): (n: nat)
    ensures n <= |keys|
    ensures n > 0 <==> k in keys
  {
    if keys == [] then 0
    else (if keys[0] == k then 1 else 0) + Occurrences(keys[1..], k)
  }

  /** The values of `keys` without repetition, in order of first appearance. */
  function Distinct(keys: seq<string>): (r: seq<string>)
    ensures forall i :: 0 <= i < |r| ==> r[i] in keys
    ensures forall i :: 0 <= i < |keys| ==> keys[i] in r
    ensures forall i, j :: 0 <= i < j < |r| ==> r[i] != r[j]
  {
    if keys == [] then []
    else
      var init, last := keys[..|keys| - 1], keys[|keys| - 1];
      assert keys == init + [last];
      var d := Distinct(init);
      if last in d then d else d + [last]
  }

  datatype Group = Group(key: string, count: nat)

  /** `SELECT key, count(*) ... GROUP BY key`: one group per distinct key. */
  function GroupCount(keys: seq<string>): (r: seq<Group>)
    ensures forall i :: 0 <= i < |r| ==> r[i].key in keys && r[i].count == Occurrences(keys, r[i].key)
    ensures forall i :: 0 <= i < |keys| ==> Group(keys[i], Occurrences(keys, keys[i])) in r
    ensures forall i, j :: 0 <= i < j < |r| ==> r[i].key != r[j].key
  {
    var d := Distinct(keys);
    var r := seq(|d|, i requires 0 <= i < |d| => Group(d[i], Occurrences(keys, d[i])));
    assert forall i :: 0 <= i < |keys| ==> Group(keys[i], Occurrences(keys, keys[i])) in r by {
      forall i | 0 <= i < |keys| ensures Group(keys[i], Occurrences(keys, keys[i])) in r {
        var j :| 0 <= j < |d| && d[j] == keys[i];
        assert r[j] == Group(keys[i], Occurrences(keys, keys[i]));
      }
    }
    r
  }

  lemma DistinctHasOneOccurrence<T>(s: seq<T>, x: T)
    requires forall i, j :: 0 <= i < j < |s| ==> s[i] != s[j]
    ensures multiset(s)[x] <= 1
  {
    if s != [] {
      assert s == [s[0]] + s[1..];
      DistinctHasOneOccurrence(s[1..], x);
      if s[0] == x {
        assert x !in s[1..];
      }
    }
  }

  /** A permutation of a sequence without repetition has no repetition. */
  lemma PermutationDistinct<T>(s: seq<T>, t: seq<T>)
    requires forall i, j :: 0 <= i < j < |s| ==> s[i] != s[j]
    requires multiset(t) == multiset(s)
    ensures forall i, j :: 0 <= i < j < |t| ==> t[i] != t[j]
  {
    forall i, j | 0 <= i < j < |t| ensures t[i] != t[j] {
      if t[i] == t[j] {
        var x := t[i];
        assert t == t[..j] + t[j..];
        assert x in t[..j] && x in t[j..];
        assert multiset(t)[x] == multiset(t[..j])[x] + multiset(t[j..])[x];
        DistinctHasOneOccurrence(s, x);
        assert false;
      }
    }
  }

  /** Reordering groups without a repeated key gives groups without a repeated key. */
  lemma PermutationDistinctKeys(s: seq<Group>, t: seq<Group>)
    requires forall i, j :: 0 <= i < j < |s| ==> s[i].key != s[j].key
    requires multiset(t) == multiset(s)
    ensures forall i, j :: 0 <= i < j < |t| ==> t[i].key != t[j].key
  {
    PermutationDistinct(s, t);
    Seqs.SameElements(t, s);
    forall i, j | 0 <= i < j < |t| ensures t[i].key != t[j].key {
      assert t[i] in s && t[j] in s;
      var p :| 0 <= p < |s| && s[p] == t[i];
      var q :| 0 <= q < |s| && s[q] == t[j];
      assert p != q;
    }
  }

  function CountOf(g: Group): int { g.count }

  /** Counts never increase along `r`, and no key repeats. */
  predicate Ranked(r: seq<Group>)
  {
    (forall i, j :: 0 <= i < j < |r| ==> r[i].count >= r[j].count) &&
    (forall i, j :: 0 <= i < j < |r| ==> r[i].key != r[j].key)
  }

  /** Every group is a key of `keys` with its exact, non-zero number of occurrences. */
  predicate ExactCounts(keys: seq<string>, r: seq<Group>)
  {
    forall i :: 0 <= i < |r| ==>
      r[i].key in keys && r[i].count == Occurrences(keys, r[i].key) && r[i].count >= 1
  }

  /** The keys of the groups, in order. */
  function KeysOf(r: seq<Group>): (ks: seq<string>)
    ensures |ks| == |r| && forall i :: 0 <= i < |r| ==> ks[i] == r[i].key
  {
    seq(|r|, i requires 0 <= i < |r| => r[i].key)
  }

  /** No key left out outnumbers a key kept: a key absent from `r` was cut by the limit,
      and occurs at most as often as every kept key. */
  predicate CutOff(keys: seq<string>, limit: Option<nat>, r: seq<Group>)
  {
    forall k :: k in keys && k !in KeysOf(r) ==>
      limit.Some? && |r| == limit.value &&
      forall i :: 0 <= i < |r| ==> Occurrences(keys, k) <= r[i].count
  }

  /** `GROUP BY key ORDER BY count(*) DESC`, then `LIMIT n` when `limit` is `Some(n)`. */
  function TopGroups(keys: seq<string>, limit: Option<nat>): (r: seq<Group>)
    ensures limit.Some? ==> |r| <= limit.value
    ensures Ranked(r) && ExactCounts(keys, r) && CutOff(keys, limit, r)
  {
    var groups := GroupCount(keys);
    var sorted := Seqs.SortDescBy(groups, CountOf);
    var r := if limit.Some? then Seqs.Take(sorted, limit.value) else sorted;
    TopGroupsCorrect(keys, limit, groups, sorted, r);
    r
  }

  lemma TopGroupsCorrect(keys: seq<string>, limit: Option<nat>, groups: seq<Group>, sorted: seq<Group>, r: seq<Group>)
    requires groups == GroupCount(keys)
    requires sorted == Seqs.SortDescBy(groups, CountOf)
    requires r == if limit.Some? then Seqs.Take(sorted, limit.value) else sorted
    ensures limit.Some? ==> |r| <= limit.value
    ensures Ranked(r) && ExactCounts(keys, r) && CutOff(keys, limit, r)
  {
    Seqs.SameElements(sorted, groups);
    PermutationDistinctKeys(groups, sorted);
    assert Ranked(sorted);
    assert ExactCounts(keys, sorted) by {
      forall i | 0 <= i < |sorted| ensures sorted[i] in groups {
      }
    }
    if limit.Some? {
      PrefixKeeps(keys, sorted, limit.value);
    }
    TopGroupsCutOff(keys, limit, sorted, r);
  }

  /** The first `n` groups of a ranked, exact grouping are ranked and exact. */
  lemma PrefixKeeps(keys: seq<string>, sorted: seq<Group>, n: nat)
    requires Ranked(sorted) && ExactCounts(keys, sorted)
    ensures Ranked(Seqs.Take(sorted, n)) && ExactCounts(keys, Seqs.Take(sorted, n))
  {
    var r := Seqs.Take(sorted, n);
    assert forall i :: 0 <= i < |r| ==> r[i] == sorted[i];
  }

  lemma TopGroupsCutOff(keys: seq<string>, limit: Option<nat>, sorted: seq<Group>, r: seq<Group>)
    requires forall i :: 0 <= i < |keys| ==> Group(keys[i], Occurrences(keys, keys[i])) in sorted
    requires forall i, j :: 0 <= i < j < |sorted| ==> sorted[i].count >= sorted[j].count
    requires r == if limit.Some? then Seqs.Take(sorted, limit.value) else sorted
    ensures CutOff(keys, limit, r)
  {
    assert r == sorted[..|r|];
    assert forall i :: 0 <= i < |r| ==> r[i] == sorted[i];
    assert |r| < |sorted| ==> limit.Some? && |r| == limit.value;
    forall k | k in keys && k !in KeysOf(r)
      ensures limit.Some? && |r| == limit.value
      ensures forall i :: 0 <= i < |r| ==> Occurrences(keys, k) <= r[i].count
    {
      var j :| 0 <= j < |keys| && keys[j] == k;
      assert forall i :: 0 <= i < |r| ==> KeysOf(r)[i] == r[i].key;
      CutOffAt(keys, sorted, r, j);
    }
  }

  /** A key missing from a prefix of the ranked groups sits beyond it, after every group
      of the prefix. */
  lemma CutOffAt(keys: seq<string>, sorted: seq<Group>, r: seq<Group>, j: nat)
    requires j < |keys| && Group(keys[j], Occurrences(keys, keys[j])) in sorted
    requires forall a, b :: 0 <= a < b < |sorted| ==> sorted[a].count >= sorted[b].count
    requires |r| <= |sorted| && forall i :: 0 <= i < |r| ==> r[i] == sorted[i]
    requires forall i :: 0 <= i < |r| ==> r[i].key != keys[j]
    ensures |r| < |sorted|
    ensures forall i :: 0 <= i < |r| ==> Occurrences(keys, keys[j]) <= r[i].count
  {
    var p :| 0 <= p < |sorted| && sorted[p] == Group(keys[j], Occurrences(keys, keys[j]));
    assert forall i :: 0 <= i < |r| ==> sorted[i].key != keys[j];
    assert sorted[p].key == keys[j];
  }

  // ---------------------------------------------------------------- visitor columns

  function CountryOf(v: Visitor): Option<string> { v.country }
  function DeviceOf(v: Visitor): Option<string> { v.device }
  function BrowserOf(v: Visitor): Option<string> { v.browser }

  /** The non-null values of one column: `SELECT col ... WHERE col IS NOT NULL`. */
  function Present(vs: seq<Visitor>, col: Visitor -> Option<string>): (r: seq<string>)
    ensures |r| <= |vs|
  {
    if vs == [] then []
    else (if col(vs[0]).Some? then [col(vs[0]).value] else []) + Present(vs[1..], col)
  }

  /** The number of visitors whose column `col` holds `c`. */
  function VisitorsWith(vs: seq<Visitor>, col: Visitor -> Option<string>, c: string): nat
  {
    if vs == [] then 0
    else (if col(vs[0]) == Some(c) then 1 else 0) + VisitorsWith(vs[1..], col, c)
  }

  lemma {:induction false} OccurrencesPresent(vs: seq<Visitor>, col: Visitor -> Option<string>, c: string)
    ensures Occurrences(Present(vs, col), c) == VisitorsWith(vs, col, c)
  {
    if vs != [] {
      var head: seq<string> := if col(vs[0]).Some? then [col(vs[0]).value] else [];
      OccurrencesPresent(vs[1..], col, c);
      OccurrencesAppend(head, Present(vs[1..], col), c);
    }
  }

  lemma {:induction false} OccurrencesAppend(s: seq<string>, t: seq<string>, k: string)
    ensures Occurrences(s + t, k) == Occurrences(s, k) + Occurrences(t, k)
  {
    if s == [] {
      assert s + t == t;
    } else {
      assert (s + t)[1..] == s[1..] + t;
      OccurrencesAppend(s[1..], t, k);
    }
  }

  // ---------------------------------------------------------------- the result

  /** One row of a per-column breakdown: `{country, count}`, `{device, count}`,
      `{browser, count}` or `{page, views}`. */
  datatype Bucket = Bucket(name: string, count: nat)

  /** `r.country || "Unknown"`: the empty string is falsy, so it is shown as "Unknown". */
  function Label(s: string): string
  {
    if s == "" then "Unknown" else s
  }

  /** Counts never increase along `r`. */
  predicate Descending(r: seq<Bucket>)
  {
    forall i, j :: 0 <= i < j < |r| ==> r[i].count >= r[j].count
  }

  /** Bucket `i` stands for value `ks[i]` of column `col`: labelled after it, counting
      exactly the visitors holding it, at least one; no value has two buckets. */
  predicate Explains(vs: seq<Visitor>, col: Visitor -> Option<string>, ks: seq<string>, r: seq<Bucket>)
  {
    |ks| == |r| &&
    (forall i, j :: 0 <= i < j < |ks| ==> ks[i] != ks[j]) &&
    forall i :: 0 <= i < |r| ==> r[i] == Bucket(Label(ks[i]), VisitorsWith(vs, col, ks[i])) && r[i].count >= 1
  }

  /** One bucket per distinct value of column `col` that some visitor holds (`GROUP BY`),
      each with its exact count. The values are named rather than read off the labels,
      since "" and "Unknown" share a label. */
  ghost predicate CountsVisitors(vs: seq<Visitor>, col: Visitor -> Option<string>, r: seq<Bucket>)
  {
    exists ks :: Explains(vs, col, ks, r)
  }

  /** No visitor value is missing from the values `ks` unless the limit cut it: a value `c`
      held by some visitor is among `ks`, or `r` is full and `c` holds at most as many
      visitors as every bucket kept. */
  ghost predicate Complete(vs: seq<Visitor>, col: Visitor -> Option<string>, limit: Option<nat>, ks: seq<string>, r: seq<Bucket>)
  {
    forall c :: VisitorsWith(vs, col, c) >= 1 ==>
      c in ks ||
      (limit.Some? && |r| == limit.value && forall i :: 0 <= i < |r| ==> VisitorsWith(vs, col, c) <= r[i].count)
  }

  /** The buckets stand for distinct values with their exact counts, and those values take
      in every value some visitor holds, except the ones the limit cut. Without a limit
      every value has its own bucket, so "" and "Unknown" both appear. */
  ghost predicate CoversVisitors(vs: seq<Visitor>, col: Visitor -> Option<string>, limit: Option<nat>, r: seq<Bucket>)
  {
    exists ks :: Explains(vs, col, ks, r) && Complete(vs, col, limit, ks, r)
  }

  /** Two buckets of one breakdown share a name only when it is "Unknown": one stands for
      the empty string, the other for the value "Unknown" itself. */
  lemma BucketNamesUnique(vs: seq<Visitor>, col: Visitor -> Option<string>, r: seq<Bucket>)
    requires CountsVisitors(vs, col, r)
    ensures forall i, j :: 0 <= i < j < |r| && r[i].name == r[j].name ==> r[i].name == "Unknown"
  {
    var ks :| Explains(vs, col, ks, r);
    forall i, j | 0 <= i < j < |r| && r[i].name == r[j].name ensures r[i].name == "Unknown" {
      assert Label(ks[i]) == Label(ks[j]) && ks[i] != ks[j];
    }
  }

  /** Without a limit, two different values held by visitors have two different buckets,
      each with its exact count, even when their labels coincide. */
  lemma OwnBuckets(vs: seq<Visitor>, col: Visitor -> Option<string>, r: seq<Bucket>, c: string, d: string)
    requires CoversVisitors(vs, col, None, r)
    requires VisitorsWith(vs, col, c) >= 1 && VisitorsWith(vs, col, d) >= 1 && c != d
    ensures exists i, j ::
              0 <= i < |r| && 0 <= j < |r| && i != j &&
              r[i] == Bucket(Label(c), VisitorsWith(vs, col, c)) &&
              r[j] == Bucket(Label(d), VisitorsWith(vs, col, d))
  {
    var ks :| Explains(vs, col, ks, r) && Complete(vs, col, None, ks, r);
    var i := BucketOf(vs, col, ks, r, c);
    var j := BucketOf(vs, col, ks, r, d);
  }

  /** The index of the bucket standing for a value some visitor holds. */
  lemma BucketOf(vs: seq<Visitor>, col: Visitor -> Option<string>, ks: seq<string>, r: seq<Bucket>, c: string)
    returns (i: nat)
    requires Explains(vs, col, ks, r) && Complete(vs, col, None, ks, r) && VisitorsWith(vs, col, c) >= 1
    ensures i < |r| && ks[i] == c && r[i] == Bucket(Label(c), VisitorsWith(vs, col, c))
  {
    i :| 0 <= i < |ks| && ks[i] == c;
  }

  function Labelled(g: seq<Group>): (r: seq<Bucket>)
    ensures |r| == |g|
    ensures forall i :: 0 <= i < |g| ==> r[i] == Bucket(Label(g[i].key), g[i].count)
  {
    seq(|g|, i requires 0 <= i < |g| => Bucket(Label(g[i].key), g[i].count))
  }

  /** The breakdown of visitors by one column, with labels. */
  function Breakdown(vs: seq<Visitor>, col: Visitor -> Option<string>, limit: Option<nat>): (r: seq<Bucket>)
    ensures limit.Some? ==> |r| <= limit.value
    ensures Descending(r) && CountsVisitors(vs, col, r) && CoversVisitors(vs, col, limit, r)
  {
    var g := TopGroups(Present(vs, col), limit);
    BreakdownCounts(vs, col, g);
    BreakdownCovers(vs, col, limit, g);
    Labelled(g)
  }

  lemma BreakdownCounts(vs: seq<Visitor>, col: Visitor -> Option<string>, g: seq<Group>)
    requires Ranked(g) && ExactCounts(Present(vs, col), g)
    ensures Descending(Labelled(g)) && Explains(vs, col, KeysOf(g), Labelled(g))
    ensures CountsVisitors(vs, col, Labelled(g))
  {
    var r, ks := Labelled(g), KeysOf(g);
    forall i | 0 <= i < |r|
      ensures r[i] == Bucket(Label(ks[i]), VisitorsWith(vs, col, ks[i])) && r[i].count >= 1
    {
      OccurrencesPresent(vs, col, g[i].key);
    }
    assert Explains(vs, col, ks, r);
  }

  lemma BreakdownCovers(vs: seq<Visitor>, col: Visitor -> Option<string>, limit: Option<nat>, g: seq<Group>)
    requires Explains(vs, col, KeysOf(g), Labelled(g)) && CutOff(Present(vs, col), limit, g)
    ensures CoversVisitors(vs, col, limit, Labelled(g))
  {
    var keys, ks, r := Present(vs, col), KeysOf(g), Labelled(g);
    forall c | VisitorsWith(vs, col, c) >= 1
      ensures c in ks ||
              (limit.Some? && |r| == limit.value && forall i :: 0 <= i < |r| ==> VisitorsWith(vs, col, c) <= r[i].count)
    {
      OccurrencesPresent(vs, col, c);
      assert c in keys;
    }
    assert Complete(vs, col, limit, ks, r);
  }

  /** The page column of the page-view table. */
  function Pages(pageViews: seq<PageView>): (r: seq<string>)
    ensures |r| == |pageViews|
    ensures forall i :: 0 <= i < |pageViews| ==> r[i] == pageViews[i].page
  {
    seq(|pageViews|, i requires 0 <= i < |pageViews| => pageViews[i].page)
  }

  /** The number of views of `page`. */
  function ViewsOf(pageViews: seq<PageView>, page: string): nat
  {
    Seqs.Count(pageViews, (v: PageView) => v.page == page)
  }

  /** Every bucket counts the exact, non-zero number of views of its page, and no page repeats. */
  predicate CountsViews(pageViews: seq<PageView>, r: seq<Bucket>)
  {
    (forall i :: 0 <= i < |r| ==> r[i].count == ViewsOf(pageViews, r[i].name) >= 1) &&
    (forall i, j :: 0 <= i < j < |r| ==> r[i].name != r[j].name)
  }

  /** No viewed page is missing from `r` unless the limit of ten cut it, and then it has at
      most as many views as every page kept. */
  ghost predicate CoversPages(pageViews: seq<PageView>, r: seq<Bucket>)
  {
    forall page :: ViewsOf(pageViews, page) >= 1 ==>
      (exists i :: 0 <= i < |r| && r[i].name == page) ||
      (|r| == 10 && forall i :: 0 <= i < |r| ==> ViewsOf(pageViews, page) <= r[i].count)
  }

  function Unlabelled(g: seq<Group>): (r: seq<Bucket>)
    ensures |r| == |g|
    ensures forall i :: 0 <= i < |g| ==> r[i] == Bucket(g[i].key, g[i].count)
  {
    seq(|g|, i requires 0 <= i < |g| => Bucket(g[i].key, g[i].count))
  }

  /** The top pages by views: `GROUP BY page ORDER BY count(*) DESC LIMIT 10`. */
  function TopPages(pageViews: seq<PageView>): (r: seq<Bucket>)
    ensures |r| <= 10
    ensures Descending(r) && CountsViews(pageViews, r) && CoversPages(pageViews, r)
  {
    var g := TopGroups(Pages(pageViews), Some(10));
    TopPagesCounts(pageViews, g);
    TopPagesCovers(pageViews, g);
    Unlabelled(g)
  }

  lemma TopPagesCovers(pageViews: seq<PageView>, g: seq<Group>)
    requires CutOff(Pages(pageViews), Some(10), g)
    ensures CoversPages(pageViews, Unlabelled(g))
  {
    forall page | ViewsOf(pageViews, page) >= 1
      ensures var r := Unlabelled(g);
              (exists i :: 0 <= i < |r| && r[i].name == page) ||
              (|r| == 10 && forall i :: 0 <= i < |r| ==> ViewsOf(pageViews, page) <= r[i].count)
    {
      TopPageCovered(pageViews, g, page);
    }
  }

  /** One viewed page: listed, or cut by the limit. */
  lemma TopPageCovered(pageViews: seq<PageView>, g: seq<Group>, page: string)
    requires CutOff(Pages(pageViews), Some(10), g) && ViewsOf(pageViews, page) >= 1
    ensures var r := Unlabelled(g);
            (exists i :: 0 <= i < |r| && r[i].name == page) ||
            (|r| == 10 && forall i :: 0 <= i < |r| ==> ViewsOf(pageViews, page) <= r[i].count)
  {
    var r := Unlabelled(g);
    PagesOccurrences(pageViews, page);
    assert page in Pages(pageViews);
    if page in KeysOf(g) {
      var i :| 0 <= i < |g| && KeysOf(g)[i] == page;
      assert r[i].name == page;
    }
  }

  lemma TopPagesCounts(pageViews: seq<PageView>, g: seq<Group>)
    requires Ranked(g) && ExactCounts(Pages(pageViews), g)
    ensures Descending(Unlabelled(g)) && CountsViews(pageViews, Unlabelled(g))
  {
    forall i | 0 <= i < |g| ensures g[i].count == ViewsOf(pageViews, g[i].key) {
      PagesOccurrences(pageViews, g[i].key);
    }
  }

  lemma {:induction false} PagesOccurrences(pageViews: seq<PageView>, page: string)
    ensures Occurrences(Pages(pageViews), page) == ViewsOf(pageViews, page)
  {
    if pageViews != [] {
      var keys, rest := Pages(pageViews), pageViews[1..];
      PagesOccurrences(rest, page);
      assert keys[1..] == Pages(rest);
      var hit := if pageViews[0].page == page then 1 else 0;
      assert Occurrences(keys, page) == hit + Occurrences(keys[1..], page);
      assert ViewsOf(pageViews, page) == hit + ViewsOf(rest, page);
    }
  }

  /** A visitor recorded as first-time (`is_returning = false`). */
  predicate FirstVisit(v: Visitor) { !v.isReturning }

  /** The number of visitors recorded as first-time: the size of the first-time subset,
      zero exactly when every visitor is returning. */
  function UniqueVisitors(vs: seq<Visitor>): (n: nat)
    ensures n <= |vs|
    ensures n == |Seqs.Filter(vs, FirstVisit)|
    ensures n == 0 <==> forall i :: 0 <= i < |vs| ==> vs[i].isReturning
  {
    Seqs.Count(vs, FirstVisit)
  }

  datatype AnalyticsData = AnalyticsData(
    totalVisitors: nat, uniqueVisitors: nat, pageViews: nat,
    topPages: seq<Bucket>, visitorsByCountry: seq<Bucket>,
    deviceStats: seq<Bucket>, browserStats: seq<Bucket>)

  function GetAnalyticsData(vs: seq<Visitor>, pageViews: seq<PageView>): (r: AnalyticsData)
    ensures r.totalVisitors == |vs| && r.pageViews == |pageViews|
    ensures r.uniqueVisitors == |Seqs.Filter(vs, FirstVisit)| && r.uniqueVisitors <= r.totalVisitors
    ensures |r.topPages| <= 10 && Descending(r.topPages) && CountsViews(pageViews, r.topPages)
    ensures CoversPages(pageViews, r.topPages)
    ensures |r.visitorsByCountry| <= 10 && Descending(r.visitorsByCountry)
    ensures CountsVisitors(vs, CountryOf, r.visitorsByCountry) && CoversVisitors(vs, CountryOf, Some(10), r.visitorsByCountry)
    ensures Descending(r.deviceStats) && CountsVisitors(vs, DeviceOf, r.deviceStats)
    ensures CoversVisitors(vs, DeviceOf, None, r.deviceStats)
    ensures Descending(r.browserStats) && CountsVisitors(vs, BrowserOf, r.browserStats)
    ensures CoversVisitors(vs, BrowserOf, None, r.browserStats)
  {
    AnalyticsData(
      |vs|, UniqueVisitors(vs), |pageViews|,
      TopPages(pageViews),
      Breakdown(vs, CountryOf, Some(10)),
      Breakdown(vs, DeviceOf, None),
      Breakdown(vs, BrowserOf, None))
  }
}
