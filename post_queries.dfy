/**
 * The listing queries of controllers/postController.js as pure functions: the
 * `page`/`limit` defaults, `skip`/`limit` paging, `Math.ceil` page counts, and
 * `find(filter).sort({ createdAt: -1 })` over the store.
 */
module PostQueries {

  import opened Wrappers
  import opened PostModel

  const DefaultPage: nat := 1
  const DefaultLimit: nat := 10

  /** `parseInt(param) || default`: `None` is a parameter that is absent or not a number (NaN). */
  function QueryParam(parsed: Option<nat>, default: nat): (r: nat)
    ensures default >= 1 ==> r >= 1
    ensures parsed.None? || parsed.value == 0 ==> r == default
    ensures parsed.Some? && parsed.value > 0 ==> r == parsed.value
  {
    if parsed.None? || parsed.value == 0 then default else parsed.value
  }

  function Min(a: nat, b: nat): nat
  {
    if a <= b then a else b
  }

  /** `skip = (page - 1) * limit`. */
  function Skip(page: nat, limit: nat): nat
    requires page >= 1
  {
    (page - 1) * limit
  }

  /** `.skip(skip).limit(limit)` applied to a result list. */
  function PageOf<T>(s: seq<T>, page: nat, limit: nat): (r: seq<T>)
    requires page >= 1
    ensures |r| <= limit
    ensures |r| == if Skip(page, limit) >= |s| then 0 else Min(limit, |s| - Skip(page, limit))
    ensures forall k | 0 <= k < |r| :: r[k] == s[Skip(page, limit) + k]
  {
    var start := Skip(page, limit);
    if start >= |s| then [] else s[start..Min(start + limit, |s|)]
  }

  /** `Math.ceil(total / limit)`: the fewest pages of `limit` items that hold `total` items. */
  function PageCount(total: nat, limit: nat): (n: nat)
    requires limit >= 1
    ensures total <= n * limit
    ensures n > 0 ==> (n - 1) * limit < total
  {
    var n := (total + limit - 1) / limit;
    assert n * limit + (total + limit - 1) % limit == total + limit - 1;
    n
  }

  /** Pages 1 to n, one after the other. */
  function Pages<T>(s: seq<T>, limit: nat, n: nat): seq<T>
  {
    if n == 0 then [] else Pages(s, limit, n - 1) + PageOf(s, n, limit)
  }

  /** Page n ends where page n+1 starts. */
  lemma SkipStep(n: nat, limit: nat)
    requires n >= 1
    ensures Skip(n, limit) + limit == n * limit
  {
    calc {
      Skip(n, limit) + limit;
      (n - 1) * limit + limit;
      { assert (n - 1) * limit + 1 * limit == ((n - 1) + 1) * limit; }
      n * limit;
    }
  }

  /** A prefix followed by the next slice is the longer prefix. */
  lemma PrefixThenSlice<T>(s: seq<T>, a: nat, b: nat)
    requires a <= b <= |s|
    ensures s[..a] + s[a..b] == s[..b]
  {
  }

  lemma {:induction false} PagesArePrefix<T>(s: seq<T>, limit: nat, n: nat)
    ensures Pages(s, limit, n) == s[..Min(n * limit, |s|)]
  {
    if n > 0 {
      var start := Skip(n, limit);
      var end := n * limit;
      PagesArePrefix(s, limit, n - 1);
      SkipStep(n, limit);
      assert Pages(s, limit, n) == Pages(s, limit, n - 1) + PageOf(s, n, limit);
      assert Pages(s, limit, n - 1) == s[..Min(start, |s|)];
      if start < |s| {
        PrefixThenSlice(s, start, Min(end, |s|));
      }
    }
  }

  /** Reading pages 1 to totalPages returns every item exactly once, in order. */
  lemma PagesCoverList<T>(s: seq<T>, limit: nat)
    requires limit >= 1
    ensures Pages(s, limit, PageCount(|s|, limit)) == s
  {
    PagesArePrefix(s, limit, PageCount(|s|, limit));
  }

  /** Limit 10 over 25 posts: 3 pages, and the third holds the last 5. */
  lemma PagingExample<T>(s: seq<T>)
    requires |s| == 25
    ensures PageCount(|s|, 10) == 3
    ensures PageOf(s, 3, 10) == s[20..]
  {
  }

  /** The three query filters: `find()`, `find({ tags: tag })` and `find({ OP: userId })`. */
  datatype Filter = AnyPost | TaggedWith(tag: string) | PostedBy(user: ObjectId)

  predicate Matches(f: Filter, p: Post)
  {
    match f
    case AnyPost => true
    case TaggedWith(tag) => tag in p.tags
    case PostedBy(user) => p.op == user
  }

  /** Each post is stored under its own id. */
  ghost predicate IdsConsistent(posts: map<ObjectId, Post>)
  {
    forall id | id in posts :: posts[id].id == id
  }

  /** Ids are allocated in creation order: a larger id was created later. */
  ghost predicate CreationOrdered(posts: map<ObjectId, Post>)
  {
    forall a, b | a in posts && b in posts && a < b :: posts[a].createdAt < posts[b].createdAt
  }

  /** What `countDocuments(filter)` counts among the ids below n. */
  ghost function MatchingIds(posts: map<ObjectId, Post>, n: nat, f: Filter): set<ObjectId>
  {
    set id | id in posts && id < n && Matches(f, posts[id])
  }

  /**
   * `find(filter).sort({ createdAt: -1 })` over the posts with ids below n: exactly
   * the matching posts, newest first.
   */
  function Newest(posts: map<ObjectId, Post>, n: nat, f: Filter): (r: seq<Post>)
    requires IdsConsistent(posts)
    ensures forall k | 0 <= k < |r| :: r[k].id < n && r[k].id in posts && posts[r[k].id] == r[k] && Matches(f, r[k])
    ensures forall j, k | 0 <= j < k < |r| :: r[j].id > r[k].id
    ensures CreationOrdered(posts) ==> forall j, k | 0 <= j < k < |r| :: r[j].createdAt > r[k].createdAt
  {
    if n == 0 then []
    else
      var rest := Newest(posts, n - 1, f);
      if n - 1 in posts && Matches(f, posts[n - 1]) then [posts[n - 1]] + rest else rest
  }

  /** Raising the bound by one adds the id below it exactly when that id is a match. */
  lemma MatchingIdsStep(posts: map<ObjectId, Post>, n: nat, f: Filter)
    requires n > 0
    ensures |MatchingIds(posts, n, f)| ==
              |MatchingIds(posts, n - 1, f)| + (if n - 1 in posts && Matches(f, posts[n - 1]) then 1 else 0)
  {
    var before := MatchingIds(posts, n - 1, f);
    var after := MatchingIds(posts, n, f);
    if n - 1 in posts && Matches(f, posts[n - 1]) {
      forall id ensures id in after <==> id in before || id == n - 1 {
      }
      assert after == before + {n - 1};
      assert n - 1 !in before;
    } else {
      forall id ensures id in after <==> id in before {
      }
      assert after == before;
    }
  }

  /** Every stored post with an id below n that matches the filter is listed. */
  lemma {:induction false} NewestComplete(posts: map<ObjectId, Post>, n: nat, f: Filter, id: ObjectId)
    requires IdsConsistent(posts) && id in posts && id < n && Matches(f, posts[id])
    ensures posts[id] in Newest(posts, n, f)
  {
    if id < n - 1 {
      NewestComplete(posts, n - 1, f, id);
      assert posts[id] in Newest(posts, n - 1, f);
    }
  }

  /** Raising the bound by one lists one more post exactly when the id below it is a match. */
  lemma NewestStep(posts: map<ObjectId, Post>, n: nat, f: Filter)
    requires IdsConsistent(posts) && n > 0
    ensures |Newest(posts, n, f)| ==
              |Newest(posts, n - 1, f)| + (if n - 1 in posts && Matches(f, posts[n - 1]) then 1 else 0)
  {
  }

  /** The total a listing reports is the number of stored posts matching its filter. */
  lemma {:induction false} CountMatches(posts: map<ObjectId, Post>, n: nat, f: Filter)
    requires IdsConsistent(posts)
    ensures |Newest(posts, n, f)| == |MatchingIds(posts, n, f)|
  {
    if n > 0 {
      CountMatches(posts, n - 1, f);
      NewestStep(posts, n, f);
      MatchingIdsStep(posts, n, f);
    }
  }

  /** A stored post is in a tag listing exactly when it carries the tag. */
  lemma TagListing(posts: map<ObjectId, Post>, n: nat, p: Post, tag: string)
    requires IdsConsistent(posts) && p.id in posts && posts[p.id] == p && p.id < n
    ensures p in Newest(posts, n, TaggedWith(tag)) <==> tag in p.tags
  {
  }
}
