/**
 * The tag pages (`TagPages`): posts grouped by tag, one statistics entry per
 * tag (count, page URL and the font size of the tag cloud) ordered by count,
 * and one detail page per tag listing its posts newest first.
 */
module TagPages {
  import opened Wrappers
  import opened Values
  import opened Seqs
  import opened Sorting
  import opened Grouping
  import opened FileScanner

  // ---------------------------------------------------------------------
  // Grouping by tag.
  // ---------------------------------------------------------------------

  /** `post["metadata"].get("tags", [])` when it is a list; any other tags value makes the post skipped. */
  function ListTags(p: Post): seq<Value>
  {
    var tags := Get(p.metadata, "tags", VList([]));
    if tags.VList? then tags.items else []
  }

  /** Every tag in a list can be a dict key (Python raises a TypeError on a list tag). */
  predicate HashableTagLists(posts: seq<Post>)
  {
    forall i :: 0 <= i < |posts| ==> forall j :: 0 <= j < |ListTags(posts[i])| ==> Hashable(ListTags(posts[i])[j])
  }

  /** `_group_by_tags`: one bucket per tag in first-seen order, a post appended once per occurrence of the tag. */
  method GroupByTags(posts: seq<Post>) returns (tags: Groups<Value, Post>)
    requires HashableTagLists(posts)
    ensures tags == Grouped(posts, ListTags)
  {
    var keys: seq<Value> := [];
    var buckets: map<Value, seq<Post>> := map[];
    for i := 0 to |posts|
      invariant Groups(keys, buckets) == Fold(posts[..i], ListTags)
    {
      var post := posts[i];
      var postTags := Get(post.metadata, "tags", VList([]));
      assert posts[..i + 1][..i] == posts[..i];
      if !postTags.VList? {
        continue;
      }
      ghost var start := Groups(keys, buckets);
      for j := 0 to |postTags.items|
        invariant Groups(keys, buckets) == AddAll(start, postTags.items[..j], post)
      {
        var tag := postTags.items[j];
        ghost var before := Groups(keys, buckets);
        if tag !in buckets {
          keys := keys + [tag];
          buckets := buckets[tag := []];
        }
        buckets := buckets[tag := buckets[tag] + [post]];
        AddApplied(before, tag, post, keys, buckets);
        assert postTags.items[..j + 1][..j] == postTags.items[..j];
      }
      assert postTags.items[..|postTags.items|] == postTags.items;
    }
    assert posts[..|posts|] == posts;
    FoldIsGrouped(posts, ListTags);
    tags := Groups(keys, buckets);
  }

  /** A post is in a tag's bucket once per occurrence of the tag in its tag list. */
  lemma TagBuckets(posts: seq<Post>, k: Value, p: Post)
    requires k in Grouped(posts, ListTags).buckets
    ensures multiset(Grouped(posts, ListTags).buckets[k])[p] == multiset(posts)[p] * multiset(ListTags(p))[k]
  {
    BucketMultiplicity(posts, ListTags, k, p);
  }

  /** A post whose tags are not a list, or are an empty list, is in no bucket. */
  lemma UntaggedInNoBucket(posts: seq<Post>, k: Value, p: Post)
    requires k in Grouped(posts, ListTags).buckets
    requires ListTags(p) == []
    ensures p !in Grouped(posts, ListTags).buckets[k]
  {
    BucketWithoutKey(posts, ListTags, k, p);
  }

  /** Every tag that has a bucket has at least one post in it. */
  lemma TagBucketsNonEmpty(posts: seq<Post>, k: Value)
    requires k in Grouped(posts, ListTags).buckets
    ensures Grouped(posts, ListTags).buckets[k] != []
  {
    GroupedKeys(posts, ListTags);
    BucketSize(posts, ListTags, k);
  }

  /** The tags in first-seen order, each once; no posts or no listed tags, no keys. */
  lemma TagKeys(posts: seq<Post>)
    ensures var g := Grouped(posts, ListTags);
      && g.keys == FirstSeen(AllKeys(posts, ListTags))
      && Distinct(g.keys)
      && (forall k :: k in g.buckets <==> k in g.keys)
      && (forall k :: k in g.keys <==> k in AllKeys(posts, ListTags))
      && (AllKeys(posts, ListTags) == [] <==> g.keys == [])
  {
    GroupedKeys(posts, ListTags);
    var all := AllKeys(posts, ListTags);
    if all != [] {
      assert all[0] in Grouped(posts, ListTags).keys;
    }
  }

  // ---------------------------------------------------------------------
  // Tag statistics.
  // ---------------------------------------------------------------------

  /** One entry of the tag cloud; the font size is kept as a number, before formatting. */
  datatype TagStat = TagStat(name: Value, count: nat, url: string, fontSize: real)

  /** Keys listed once each, every key with a bucket and every bucket listed. */
  ghost predicate WellFormed(g: Groups<Value, Post>)
  {
    && Distinct(g.keys)
    && (forall k :: k in g.buckets <==> k in g.keys)
  }

  /** The largest bucket size among `keys` (0 for none). */
  function MaxOver(keys: seq<Value>, buckets: map<Value, seq<Post>>): (m: nat)
    requires forall i :: 0 <= i < |keys| ==> keys[i] in buckets
    ensures forall i :: 0 <= i < |keys| ==> |buckets[keys[i]]| <= m
    ensures keys != [] ==> exists i :: 0 <= i < |keys| && |buckets[keys[i]]| == m
  {
    if keys == [] then 0
    else
      var m := MaxOver(keys[..|keys| - 1], buckets);
      var last := |buckets[keys[|keys| - 1]]|;
      if last > m then last else m
  }

  /** `max(len(posts) for posts in tags_dict.values()) if tags_dict else 1`. */
  function MaxCount(g: Groups<Value, Post>): nat
    requires forall i :: 0 <= i < |g.keys| ==> g.keys[i] in g.buckets
  {
    if g.keys == [] then 1 else MaxOver(g.keys, g.buckets)
  }

  /** The font size in em: from 0.9 up to 1.7 in proportion to the count, or 1.2 when no tag has more than one post. */
  function FontSize(count: nat, maxCount: nat): real
  {
    if maxCount > 1 then 0.9 + (count as real / maxCount as real) * 0.8 else 1.2
  }

  /** The entry for tag `name` with posts `bucket`: the page URL is `str(name) + ".html"`. */
  function Stat(name: Value, bucket: seq<Post>, maxCount: nat): TagStat
    requires Hashable(name)
  {
    TagStat(name, |bucket|, ToStr(name) + ".html", FontSize(|bucket|, maxCount))
  }

  /** Every tag can be a dict key (Python raises a TypeError on a list tag). */
  predicate HashableKeys(g: Groups<Value, Post>)
  {
    forall i :: 0 <= i < |g.keys| ==> g.keys[i] in g.buckets && Hashable(g.keys[i])
  }

  /** The entries in the dict's key order, before sorting: the `i`-th is the entry of the `i`-th tag. */
  function StatsInOrder(keys: seq<Value>, buckets: map<Value, seq<Post>>, maxCount: nat): seq<TagStat>
    requires forall i :: 0 <= i < |keys| ==> keys[i] in buckets && Hashable(keys[i])
  {
    seq(|keys|, i requires 0 <= i < |keys| => Stat(keys[i], buckets[keys[i]], maxCount))
  }

  function StatCount(s: TagStat): nat
  {
    s.count
  }

  /** `tag_stats.sort(key=lambda x: x['count'], reverse=True)` applied to the entries in key order. */
  function SortedStats(g: Groups<Value, Post>): seq<TagStat>
    requires HashableKeys(g)
  {
    StableSort(StatsInOrder(g.keys, g.buckets, MaxCount(g)), StatCount, Reverse(CountLt))
  }

  /** `_calculate_tag_stats`: an entry appended per tag, then the list sorted by count, largest first. */
  method CalculateTagStats(g: Groups<Value, Post>) returns (stats: seq<TagStat>)
    requires HashableKeys(g)
    ensures stats == SortedStats(g)
  {
    var maxCount := MaxCount(g);
    stats := [];
    for i := 0 to |g.keys|
      invariant |stats| == i
      invariant forall j :: 0 <= j < i ==> stats[j] == Stat(g.keys[j], g.buckets[g.keys[j]], maxCount)
    {
      var name := g.keys[i];
      var tagPosts := g.buckets[name];
      stats := stats + [Stat(name, tagPosts, maxCount)];
    }
    assert stats == StatsInOrder(g.keys, g.buckets, maxCount);
    stats := StableSort(stats, StatCount, Reverse(CountLt));
  }

  function StatName(s: TagStat): Value
  {
    s.name
  }

  /** The entries in key order carry the tags' names, which differ pairwise. */
  lemma InOrderNamesDistinct(g: Groups<Value, Post>, inOrder: seq<TagStat>)
    requires HashableKeys(g) && WellFormed(g)
    requires inOrder == StatsInOrder(g.keys, g.buckets, MaxCount(g))
    ensures KeysDistinct(inOrder, StatName)
  {
    forall i, j | 0 <= i < j < |inOrder| ensures StatName(inOrder[i]) != StatName(inOrder[j]) {
      assert StatName(inOrder[i]) == g.keys[i] && StatName(inOrder[j]) == g.keys[j];
    }
  }

  /** Every sorted entry is the entry of some tag: its post count, its page URL and its font size. */
  lemma StatsEntries(g: Groups<Value, Post>, i: nat)
    requires HashableKeys(g)
    requires i < |SortedStats(g)|
    ensures var x := SortedStats(g)[i];
      x.name in g.buckets && Hashable(x.name) && x == Stat(x.name, g.buckets[x.name], MaxCount(g))
  {
    var inOrder := StatsInOrder(g.keys, g.buckets, MaxCount(g));
    var stats := SortedStats(g);
    StableSortPermutation(inOrder, StatCount, Reverse(CountLt));
    assert stats[i] in multiset(inOrder);
    var j :| 0 <= j < |inOrder| && inOrder[j] == stats[i];
  }

  /** One entry per tag: as many entries as tags, and no tag with two. */
  lemma StatsPerTag(g: Groups<Value, Post>)
    requires HashableKeys(g) && WellFormed(g)
    ensures |SortedStats(g)| == |g.keys|
    ensures KeysDistinct(SortedStats(g), StatName)
  {
    var inOrder := StatsInOrder(g.keys, g.buckets, MaxCount(g));
    var stats := SortedStats(g);
    StableSortPermutation(inOrder, StatCount, Reverse(CountLt));
    assert |stats| == |inOrder| by {
      assert |multiset(stats)| == |multiset(inOrder)|;
    }
    InOrderNamesDistinct(g, inOrder);
    PermutationKeysDistinct(stats, inOrder, StatName);
  }

  /** Every tag has an entry. */
  lemma StatsCoverTags(g: Groups<Value, Post>, k: Value)
    requires HashableKeys(g) && WellFormed(g)
    requires k in g.buckets
    ensures exists i :: 0 <= i < |SortedStats(g)| && SortedStats(g)[i].name == k
  {
    var inOrder := StatsInOrder(g.keys, g.buckets, MaxCount(g));
    var stats := SortedStats(g);
    StableSortPermutation(inOrder, StatCount, Reverse(CountLt));
    var a :| 0 <= a < |g.keys| && g.keys[a] == k;
    assert inOrder[a] in multiset(stats);
    var i :| 0 <= i < |stats| && stats[i] == inOrder[a];
  }

  /**
   * Entries run from the largest count down, and tags with equal counts keep
   * the dict's key order (the order in which the tags were first met).
   */
  lemma StatsOrder(g: Groups<Value, Post>)
    requires HashableKeys(g)
    ensures var stats := SortedStats(g);
      && (forall i, j :: 0 <= i < j < |stats| ==> stats[i].count >= stats[j].count)
      && (forall c :: KeyFilter(stats, StatCount, c) == KeyFilter(StatsInOrder(g.keys, g.buckets, MaxCount(g)), StatCount, c))
  {
    var inOrder := StatsInOrder(g.keys, g.buckets, MaxCount(g));
    CountLtIsStrictTotalOrder();
    StableSortSorted(inOrder, StatCount, Reverse(CountLt));
    var stats := SortedStats(g);
    forall i, j | 0 <= i < j < |stats| ensures stats[i].count >= stats[j].count {
      assert !Reverse(CountLt)(StatCount(stats[j]), StatCount(stats[i]));
    }
    forall c ensures KeyFilter(stats, StatCount, c) == KeyFilter(inOrder, StatCount, c) {
      StableSortKeyFilter(inOrder, StatCount, Reverse(CountLt), c);
    }
  }

  /**
   * With more than one post on some tag, a tag with 1 ≤ count ≤ max gets a
   * size above 0.9 and at most 1.7, and exactly 1.7 when its count is the
   * maximum; otherwise every tag gets 1.2.
   */
  lemma FontSizeRange(count: nat, maxCount: nat)
    requires 1 <= count <= maxCount
    ensures maxCount > 1 ==> 0.9 < FontSize(count, maxCount) <= 1.7
    ensures maxCount > 1 ==> (FontSize(count, maxCount) == 1.7 <==> count == maxCount)
    ensures maxCount <= 1 ==> FontSize(count, maxCount) == 1.2
  {
    if maxCount > 1 {
      var ratio := count as real / maxCount as real;
      assert 0.0 < ratio <= 1.0;
      assert ratio == 1.0 <==> count == maxCount;
    }
  }

  /**
   * Every entry of the tag cloud gets a size above 0.9 em and at most 1.7 em,
   * exactly 1.7 em for the tags with the most posts; 1.2 em for all when no
   * tag has more than one post.
   */
  lemma StatsFontSizes(posts: seq<Post>)
    requires HashableTagLists(posts)
    ensures HashableKeys(Grouped(posts, ListTags))
    ensures var g := Grouped(posts, ListTags);
      var stats := SortedStats(g);
      forall i :: 0 <= i < |stats| ==>
        && (MaxCount(g) > 1 ==> 0.9 < stats[i].fontSize <= 1.7)
        && (MaxCount(g) > 1 ==> (stats[i].fontSize == 1.7 <==> stats[i].count == MaxCount(g)))
        && (MaxCount(g) <= 1 ==> stats[i].fontSize == 1.2)
  {
    var g := Grouped(posts, ListTags);
    GroupedHashable(posts);
    CountsWithinMax(posts);
    var stats := SortedStats(g);
    forall i | 0 <= i < |stats|
      ensures MaxCount(g) > 1 ==> 0.9 < stats[i].fontSize <= 1.7
      ensures MaxCount(g) > 1 ==> (stats[i].fontSize == 1.7 <==> stats[i].count == MaxCount(g))
      ensures MaxCount(g) <= 1 ==> stats[i].fontSize == 1.2
    {
      StatsEntries(g, i);
      FontSizeRange(stats[i].count, MaxCount(g));
    }
  }

  /** For grouped posts, every entry's count is between 1 and the maximum, and the maximum is reached. */
  lemma CountsWithinMax(posts: seq<Post>)
    requires HashableTagLists(posts)
    ensures var g := Grouped(posts, ListTags);
      && HashableKeys(g)
      && (forall k :: k in g.buckets ==> 1 <= |g.buckets[k]| <= MaxCount(g))
      && (g.keys != [] ==> exists k :: k in g.buckets && |g.buckets[k]| == MaxCount(g))
  {
    var g := Grouped(posts, ListTags);
    GroupedHashable(posts);
    TagKeys(posts);
    forall k | k in g.buckets ensures 1 <= |g.buckets[k]| <= MaxCount(g) {
      TagBucketsNonEmpty(posts, k);
      var a :| 0 <= a < |g.keys| && g.keys[a] == k;
    }
    if g.keys != [] {
      var i :| 0 <= i < |g.keys| && |g.buckets[g.keys[i]]| == MaxCount(g);
      assert g.keys[i] in g.buckets;
    }
  }

  /** The tags of grouped posts can all be dict keys. */
  lemma GroupedHashable(posts: seq<Post>)
    requires HashableTagLists(posts)
    ensures HashableKeys(Grouped(posts, ListTags))
  {
    var g := Grouped(posts, ListTags);
    TagKeys(posts);
    forall i | 0 <= i < |g.keys| ensures Hashable(g.keys[i]) {
      AllKeysHashable(posts, g.keys[i]);
    }
  }

  lemma {:induction false} AllKeysHashable(posts: seq<Post>, k: Value)
    requires HashableTagLists(posts)
    requires k in AllKeys(posts, ListTags)
    ensures Hashable(k)
  {
    var init, last := posts[..|posts| - 1], posts[|posts| - 1];
    assert AllKeys(posts, ListTags) == AllKeys(init, ListTags) + ListTags(last);
    if k in AllKeys(init, ListTags) {
      assert HashableTagLists(init) by {
        forall i | 0 <= i < |init| ensures forall j :: 0 <= j < |ListTags(init[i])| ==> Hashable(ListTags(init[i])[j]) {
          assert init[i] == posts[i];
        }
      }
      AllKeysHashable(init, k);
    } else {
      assert k in ListTags(last);
    }
  }

  // ---------------------------------------------------------------------
  // The pages.
  // ---------------------------------------------------------------------

  /** What one tag's detail page lists: the tag and its posts. */
  datatype TagDetail = TagDetail(name: Value, posts: seq<Post>)

  /** What the tag pages are rendered from: the cloud entries, the post total and the detail pages. */
  datatype TagSite = TagSite(stats: seq<TagStat>, totalPosts: nat, details: seq<TagDetail>)

  /** A post with a non-empty tag list has a string date (or none), so its tag page can sort by date. */
  predicate TaggedDates(posts: seq<Post>)
  {
    forall i :: 0 <= i < |posts| && ListTags(posts[i]) != [] ==> Get(posts[i].metadata, "date", VStr("")).VStr?
  }

  lemma BucketDates(posts: seq<Post>, k: Value)
    requires TaggedDates(posts)
    requires k in Grouped(posts, ListTags).buckets
    ensures StringDates(Grouped(posts, ListTags).buckets[k])
  {
    var bucket := Grouped(posts, ListTags).buckets[k];
    forall i | 0 <= i < |bucket| ensures Get(bucket[i].metadata, "date", VStr("")).VStr? {
      var p := bucket[i];
      TagBuckets(posts, k, p);
      assert multiset(bucket)[p] > 0;
      assert multiset(posts)[p] > 0 && multiset(ListTags(p))[k] > 0;
      var j :| 0 <= j < |posts| && posts[j] == p;
    }
  }

  /** `_render_tag_detail`'s list: the tag's posts sorted by date, newest first. */
  function Detail(name: Value, bucket: seq<Post>): TagDetail
    requires StringDates(bucket)
  {
    TagDetail(name, SortByDate(bucket, true))
  }

  /** The detail pages, one per tag in key order: the `i`-th is the page of the `i`-th tag. */
  function Details(keys: seq<Value>, buckets: map<Value, seq<Post>>): seq<TagDetail>
    requires forall i :: 0 <= i < |keys| ==> keys[i] in buckets && StringDates(buckets[keys[i]])
  {
    seq(|keys|, i requires 0 <= i < |keys| => Detail(keys[i], buckets[keys[i]]))
  }

  /** Each tag's bucket has string dates. */
  lemma GroupedDates(posts: seq<Post>)
    requires TaggedDates(posts)
    ensures var g := Grouped(posts, ListTags);
      forall i :: 0 <= i < |g.keys| ==> g.keys[i] in g.buckets && StringDates(g.buckets[g.keys[i]])
  {
    var g := Grouped(posts, ListTags);
    TagKeys(posts);
    forall i | 0 <= i < |g.keys| ensures g.keys[i] in g.buckets && StringDates(g.buckets[g.keys[i]]) {
      BucketDates(posts, g.keys[i]);
    }
  }

  /** The tag pages of a non-empty post list with at least one listed tag. */
  function Site(posts: seq<Post>): TagSite
    requires HashableTagLists(posts) && TaggedDates(posts)
  {
    var g := Grouped(posts, ListTags);
    GroupedHashable(posts);
    GroupedDates(posts);
    TagSite(SortedStats(g), |posts|, Details(g.keys, g.buckets))
  }

  /** The detail-page loop of `generate`: one page per tag, in key order. */
  method RenderDetails(g: Groups<Value, Post>) returns (details: seq<TagDetail>)
    requires forall i :: 0 <= i < |g.keys| ==> g.keys[i] in g.buckets && StringDates(g.buckets[g.keys[i]])
    ensures details == Details(g.keys, g.buckets)
  {
    ghost var all := Details(g.keys, g.buckets);
    details := [];
    for i := 0 to |g.keys|
      invariant details == all[..i]
    {
      var name := g.keys[i];
      details := details + [Detail(name, g.buckets[name])];
      assert all[..i + 1] == all[..i] + [all[i]];
    }
    assert all[..|g.keys|] == all;
  }

  /**
   * `generate`: nothing when there are no posts or no post lists a tag;
   * otherwise the cloud entries and one detail page per tag.
   */
  method Generate(posts: seq<Post>) returns (site: Option<TagSite>)
    requires HashableTagLists(posts) && TaggedDates(posts)
    ensures site.None? <==> posts == [] || AllKeys(posts, ListTags) == []
    ensures site.Some? ==> site.value == Site(posts)
  {
    if |posts| == 0 {
      assert AllKeys(posts, ListTags) == [];
      return None;
    }
    var tags := GroupByTags(posts);
    TagKeys(posts);
    if |tags.keys| == 0 {
      return None;
    }
    GroupedHashable(posts);
    GroupedDates(posts);
    var stats := CalculateTagStats(tags);
    var details := RenderDetails(tags);
    site := Some(TagSite(stats, |posts|, details));
  }

  /**
   * Each detail page belongs to the tag at the same position of the dict's
   * keys and lists exactly that tag's posts, newest first, posts with equal
   * dates in the order of the tag's bucket.
   */
  lemma DetailPages(posts: seq<Post>, i: nat)
    requires HashableTagLists(posts) && TaggedDates(posts)
    requires i < |Site(posts).details|
    ensures var g := Grouped(posts, ListTags);
      var d := Site(posts).details[i];
      && |Site(posts).details| == |g.keys|
      && d.name == g.keys[i]
      && multiset(d.posts) == multiset(g.buckets[g.keys[i]])
      && (forall a, b :: 0 <= a < b < |d.posts| ==> DatesInOrder(d.posts[a], d.posts[b], true))
      && (forall date :: KeyFilter(d.posts, DateKey, date) == KeyFilter(g.buckets[g.keys[i]], DateKey, date))
  {
    var g := Grouped(posts, ListTags);
    GroupedDates(posts);
    var bucket := g.buckets[g.keys[i]];
    forall date ensures KeyFilter(SortByDate(bucket, true), DateKey, date) == KeyFilter(bucket, DateKey, date) {
      SortByDateStable(bucket, true, date);
    }
  }
}
