/**
 * The category pages (`CategoryPages`): posts grouped by category, one
 * statistics entry per category (count, newest post and page URL) ordered by
 * count, and one detail page per category listing its posts newest first.
 * The grouping is the scanner's (`FileScanner.GroupByCategory`): the two
 * loops are the same.
 */
module CategoryPages {
  import opened Wrappers
  import opened Values
  import opened Text
  import opened Seqs
  import opened Sorting
  import opened Grouping
  import opened FileScanner
  import Metadata

  // ---------------------------------------------------------------------
  // The newest post of a category.
  // ---------------------------------------------------------------------

  /** What the category index shows of a post: its title and its date. */
  datatype LatestPost = LatestPost(title: Value, date: Value)

  /** `{'title': m.get('title', '无标题'), 'date': m.get('date', '')}` for the post's metadata `m`. */
  function Summary(p: Post): LatestPost
  {
    LatestPost(Get(p.metadata, "title", VStr(Metadata.Untitled)), Get(p.metadata, "date", VStr("")))
  }

  /** `_get_latest_post`: None for no posts, else the summary of the head of the newest-first sort. */
  function LatestOf(posts: seq<Post>): (r: Option<LatestPost>)
    requires StringDates(posts)
    ensures r.None? <==> posts == []
  {
    if posts == [] then None else Some(Summary(SortByDate(posts, true)[0]))
  }

  /**
   * The summary is that of the post with the greatest date string, the
   * earliest one in the list when several share it.
   */
  lemma LatestIsNewest(posts: seq<Post>) returns (i: nat)
    requires StringDates(posts) && posts != []
    ensures i < |posts| && LatestOf(posts) == Some(Summary(posts[i]))
    ensures forall j :: 0 <= j < |posts| ==> !StrLt(DateKey(posts[i]), DateKey(posts[j]))
    ensures forall j :: 0 <= j < i ==> StrLt(DateKey(posts[j]), DateKey(posts[i]))
  {
    DateOrderIsStrictTotalOrder(true);
    i := FirstLeast(posts, DateKey, DateOrder(true));
    StableSortHead(posts, DateKey, DateOrder(true));
  }

  /** Conversely, the first post with the greatest date is the one summarised. */
  lemma NewestIsLatest(posts: seq<Post>, i: nat)
    requires StringDates(posts)
    requires i < |posts|
    requires forall j :: 0 <= j < |posts| ==> !StrLt(DateKey(posts[i]), DateKey(posts[j]))
    requires forall j :: 0 <= j < i ==> StrLt(DateKey(posts[j]), DateKey(posts[i]))
    ensures LatestOf(posts) == Some(Summary(posts[i]))
  {
    var k := LatestIsNewest(posts);
    if i < k {
      assert false;
    } else if k < i {
      assert false;
    }
  }

  // ---------------------------------------------------------------------
  // Category statistics.
  // ---------------------------------------------------------------------

  /** One entry of the category index. */
  datatype CategoryStat = CategoryStat(name: Value, count: nat, latest: Option<LatestPost>, url: string)

  /** The entry for category `name` with posts `bucket`: the page URL is `f'{name}.html'`. */
  function Stat(name: Value, bucket: seq<Post>): CategoryStat
    requires Hashable(name) && StringDates(bucket)
  {
    CategoryStat(name, |bucket|, LatestOf(bucket), ToStr(name) + ".html")
  }

  /** Every category has a bucket, can be a dict key and has posts whose dates compare. */
  predicate ReadyKeys(g: Groups<Value, Post>)
  {
    forall i :: 0 <= i < |g.keys| ==> g.keys[i] in g.buckets && Hashable(g.keys[i]) && StringDates(g.buckets[g.keys[i]])
  }

  /** The entries in the dict's key order, before sorting: the `i`-th is the entry of the `i`-th category. */
  function StatsInOrder(keys: seq<Value>, buckets: map<Value, seq<Post>>): seq<CategoryStat>
    requires ReadyKeys(Groups(keys, buckets))
  {
    seq(|keys|, i requires 0 <= i < |keys| => Stat(keys[i], buckets[keys[i]]))
  }

  function StatCount(s: CategoryStat): nat
  {
    s.count
  }

  function StatName(s: CategoryStat): Value
  {
    s.name
  }

  /** `category_stats.sort(key=lambda x: x['count'], reverse=True)` applied to the entries in key order. */
  function SortedStats(g: Groups<Value, Post>): seq<CategoryStat>
    requires ReadyKeys(g)
  {
    StableSort(StatsInOrder(g.keys, g.buckets), StatCount, Reverse(CountLt))
  }

  /** The statistics part of `generate`: an entry appended per category, then the list sorted by count, largest first. */
  method CalculateCategoryStats(g: Groups<Value, Post>) returns (stats: seq<CategoryStat>)
    requires ReadyKeys(g)
    ensures stats == SortedStats(g)
  {
    stats := [];
    for i := 0 to |g.keys|
      invariant |stats| == i
      invariant forall j :: 0 <= j < i ==> stats[j] == Stat(g.keys[j], g.buckets[g.keys[j]])
    {
      var name := g.keys[i];
      var catPosts := g.buckets[name];
      var latest := LatestOf(catPosts);
      stats := stats + [CategoryStat(name, |catPosts|, latest, ToStr(name) + ".html")];
    }
    assert stats == StatsInOrder(g.keys, g.buckets);
    stats := StableSort(stats, StatCount, Reverse(CountLt));
  }

  /** Every sorted entry is the entry of some category: its post count, its newest post and its page URL. */
  lemma StatsEntries(g: Groups<Value, Post>, i: nat)
    requires ReadyKeys(g)
    requires i < |SortedStats(g)|
    ensures var x := SortedStats(g)[i];
      && x.name in g.buckets && Hashable(x.name) && StringDates(g.buckets[x.name])
      && x == Stat(x.name, g.buckets[x.name])
  {
    var inOrder := StatsInOrder(g.keys, g.buckets);
    var stats := SortedStats(g);
    StableSortPermutation(inOrder, StatCount, Reverse(CountLt));
    assert stats[i] in multiset(inOrder);
    var j :| 0 <= j < |inOrder| && inOrder[j] == stats[i];
  }

  /** One entry per category: as many entries as categories, and no category with two. */
  lemma StatsPerCategory(g: Groups<Value, Post>)
    requires ReadyKeys(g) && Distinct(g.keys)
    ensures |SortedStats(g)| == |g.keys|
    ensures KeysDistinct(SortedStats(g), StatName)
  {
    var inOrder := StatsInOrder(g.keys, g.buckets);
    var stats := SortedStats(g);
    StableSortPermutation(inOrder, StatCount, Reverse(CountLt));
    assert |stats| == |inOrder| by {
      assert |multiset(stats)| == |multiset(inOrder)|;
    }
    assert KeysDistinct(inOrder, StatName) by {
      forall i, j | 0 <= i < j < |inOrder| ensures StatName(inOrder[i]) != StatName(inOrder[j]) {
        assert StatName(inOrder[i]) == g.keys[i] && StatName(inOrder[j]) == g.keys[j];
      }
    }
    PermutationKeysDistinct(stats, inOrder, StatName);
  }

  /** Every category has an entry. */
  lemma StatsCoverCategories(g: Groups<Value, Post>, a: nat)
    requires ReadyKeys(g)
    requires a < |g.keys|
    ensures exists i :: 0 <= i < |SortedStats(g)| && SortedStats(g)[i].name == g.keys[a]
  {
    var inOrder := StatsInOrder(g.keys, g.buckets);
    var stats := SortedStats(g);
    StableSortPermutation(inOrder, StatCount, Reverse(CountLt));
    assert inOrder[a] in multiset(stats);
    var i :| 0 <= i < |stats| && stats[i] == inOrder[a];
  }

  /**
   * Entries run from the largest count down, and categories with equal
   * counts keep the dict's key order (the order in which they were first met).
   */
  lemma StatsOrder(g: Groups<Value, Post>)
    requires ReadyKeys(g)
    ensures var stats := SortedStats(g);
      && (forall i, j :: 0 <= i < j < |stats| ==> stats[i].count >= stats[j].count)
      && (forall c :: KeyFilter(stats, StatCount, c) == KeyFilter(StatsInOrder(g.keys, g.buckets), StatCount, c))
  {
    var inOrder := StatsInOrder(g.keys, g.buckets);
    CountLtIsStrictTotalOrder();
    StableSortSorted(inOrder, StatCount, Reverse(CountLt));
    var stats := SortedStats(g);
    forall i, j | 0 <= i < j < |stats| ensures stats[i].count >= stats[j].count {
      assert !Reverse(CountLt)(StatCount(stats[j]), StatCount(stats[i]));
    }
    forall c ensures KeyFilter(stats, StatCount, c) == KeyFilter(inOrder, StatCount, c) {
      StableSortKeyFilter(inOrder, StatCount, Reverse(CountLt), c);
    }
  }

  // ---------------------------------------------------------------------
  // From the posts.
  // ---------------------------------------------------------------------

  /** The category grouping of posts whose categories are keys and whose dates compare is ready for the statistics. */
  lemma GroupedReady(posts: seq<Post>)
    requires HashableCategories(posts) && StringDates(posts)
    ensures ReadyKeys(Grouped(posts, CategoryKeys))
    ensures Distinct(Grouped(posts, CategoryKeys).keys)
  {
    var g := Grouped(posts, CategoryKeys);
    GroupedKeys(posts, CategoryKeys);
    forall i | 0 <= i < |g.keys|
      ensures g.keys[i] in g.buckets && Hashable(g.keys[i]) && StringDates(g.buckets[g.keys[i]])
    {
      assert g.keys[i] in g.keys;
      ReadyKey(posts, g.keys[i]);
    }
  }

  lemma ReadyKey(posts: seq<Post>, k: Value)
    requires HashableCategories(posts) && StringDates(posts)
    requires k in Grouped(posts, CategoryKeys).keys
    ensures k in Grouped(posts, CategoryKeys).buckets
    ensures Hashable(k) && StringDates(Grouped(posts, CategoryKeys).buckets[k])
  {
    CategoryKeysFirstSeen(posts);
    GroupedKeys(posts, CategoryKeys);
    var visited := AllKeys(posts, CategoryKeys);
    var a :| 0 <= a < |visited| && visited[a] == k;
    assert k == CategoryOf(posts[a]);
    BucketInPosts(posts, k);
  }

  /** A category's bucket holds posts of the list, so its dates compare when the list's do. */
  lemma BucketInPosts(posts: seq<Post>, k: Value)
    requires StringDates(posts)
    requires k in Grouped(posts, CategoryKeys).buckets
    ensures StringDates(Grouped(posts, CategoryKeys).buckets[k])
  {
    var bucket := Grouped(posts, CategoryKeys).buckets[k];
    CategoryPartition(posts);
    KeyFilterMembers(posts, CategoryOf, k);
    forall i | 0 <= i < |bucket| ensures Get(bucket[i].metadata, "date", VStr("")).VStr? {
      var j :| 0 <= j < |posts| && posts[j] == bucket[i];
    }
  }

  /** Each index entry counts exactly the posts of its category and summarises the newest of them. */
  lemma StatOfPosts(posts: seq<Post>, i: nat)
    requires HashableCategories(posts) && StringDates(posts)
    requires i < |Site(posts).stats|
    ensures var x := Site(posts).stats[i];
      var bucket := KeyFilter(posts, CategoryOf, x.name);
      && StringDates(bucket)
      && x.count == |bucket| && x.latest == LatestOf(bucket)
      && Hashable(x.name) && x.url == ToStr(x.name) + ".html"
  {
    var g := Grouped(posts, CategoryKeys);
    GroupedReady(posts);
    StatsEntries(g, i);
    CategoryPartition(posts);
  }

  /** The index has one entry per category of the posts and none twice. */
  lemma StatsOfPostsDistinct(posts: seq<Post>)
    requires HashableCategories(posts) && StringDates(posts)
    ensures |Site(posts).stats| == |Grouped(posts, CategoryKeys).keys|
    ensures KeysDistinct(Site(posts).stats, StatName)
  {
    GroupedReady(posts);
    StatsPerCategory(Grouped(posts, CategoryKeys));
  }

  /** Every post's category has an entry in the index. */
  lemma StatsCoverPosts(posts: seq<Post>, j: nat)
    requires HashableCategories(posts) && StringDates(posts)
    requires j < |posts|
    ensures exists i :: 0 <= i < |Site(posts).stats| && Site(posts).stats[i].name == CategoryOf(posts[j])
  {
    var g := Grouped(posts, CategoryKeys);
    GroupedReady(posts);
    CategoryPartition(posts);
    GroupedKeys(posts, CategoryKeys);
    var a :| 0 <= a < |g.keys| && g.keys[a] == CategoryOf(posts[j]);
    StatsCoverCategories(g, a);
    var stats := SortedStats(g);
    assert Site(posts).stats == stats;
    var i :| 0 <= i < |stats| && stats[i].name == g.keys[a];
    assert Site(posts).stats[i].name == CategoryOf(posts[j]);
  }

  // ---------------------------------------------------------------------
  // The pages.
  // ---------------------------------------------------------------------

  /** What one category's detail page lists: the category and its posts. */
  datatype CategoryDetail = CategoryDetail(name: Value, posts: seq<Post>)

  /** What the category pages are rendered from: the index entries, the post total and the detail pages. */
  datatype CategorySite = CategorySite(stats: seq<CategoryStat>, totalPosts: nat, details: seq<CategoryDetail>)

  /** `_render_category_detail`'s list: the category's posts sorted by date, newest first. */
  function Detail(name: Value, bucket: seq<Post>): CategoryDetail
    requires StringDates(bucket)
  {
    CategoryDetail(name, SortByDate(bucket, true))
  }

  /** The detail pages, one per category in key order: the `i`-th is the page of the `i`-th category. */
  function Details(keys: seq<Value>, buckets: map<Value, seq<Post>>): seq<CategoryDetail>
    requires ReadyKeys(Groups(keys, buckets))
  {
    seq(|keys|, i requires 0 <= i < |keys| => Detail(keys[i], buckets[keys[i]]))
  }

  /** The category pages of a list of posts. */
  function Site(posts: seq<Post>): CategorySite
    requires HashableCategories(posts) && StringDates(posts)
  {
    var g := Grouped(posts, CategoryKeys);
    GroupedReady(posts);
    CategorySite(SortedStats(g), |posts|, Details(g.keys, g.buckets))
  }

  /** The detail-page loop of `generate`: one page per category, in key order. */
  method RenderDetails(g: Groups<Value, Post>) returns (details: seq<CategoryDetail>)
    requires ReadyKeys(g)
    ensures details == Details(g.keys, g.buckets)
  {
    details := [];
    for i := 0 to |g.keys|
      invariant |details| == i
      invariant forall j :: 0 <= j < i ==> details[j] == Detail(g.keys[j], g.buckets[g.keys[j]])
    {
      var name := g.keys[i];
      details := details + [Detail(name, g.buckets[name])];
    }
    assert details == Details(g.keys, g.buckets);
  }

  /** `generate`: nothing when there are no posts; otherwise the index entries and one detail page per category. */
  method Generate(posts: seq<Post>) returns (site: Option<CategorySite>)
    requires HashableCategories(posts) && StringDates(posts)
    ensures site.None? <==> posts == []
    ensures site.Some? ==> site.value == Site(posts)
  {
    if |posts| == 0 {
      return None;
    }
    var categories := GroupByCategory(posts);
    GroupedReady(posts);
    var stats := CalculateCategoryStats(categories);
    var details := RenderDetails(categories);
    site := Some(CategorySite(stats, |posts|, details));
  }

  /**
   * Each detail page belongs to the category at the same position of the
   * dict's keys and lists exactly that category's posts, newest first, posts
   * with equal dates in input order.
   */
  lemma DetailPages(posts: seq<Post>, i: nat)
    requires HashableCategories(posts) && StringDates(posts)
    requires i < |Site(posts).details|
    ensures var g := Grouped(posts, CategoryKeys);
      var d := Site(posts).details[i];
      var bucket := KeyFilter(posts, CategoryOf, d.name);
      && |Site(posts).details| == |g.keys|
      && d.name == g.keys[i]
      && StringDates(bucket)
      && multiset(d.posts) == multiset(bucket)
      && (forall a, b :: 0 <= a < b < |d.posts| ==> DatesInOrder(d.posts[a], d.posts[b], true))
      && (forall date :: KeyFilter(d.posts, DateKey, date) == KeyFilter(bucket, DateKey, date))
  {
    var g := Grouped(posts, CategoryKeys);
    GroupedReady(posts);
    CategoryPartition(posts);
    var k := g.keys[i];
    forall date ensures KeyFilter(SortByDate(g.buckets[k], true), DateKey, date) == KeyFilter(g.buckets[k], DateKey, date) {
      SortByDateStable(g.buckets[k], true, date);
    }
  }
}
