/**
 * The file scanner's post list and its orderings and groupings
 * (`FileScanner`). A post is what scanning one Markdown file yields: the
 * file's stem, its normalised metadata and its body text.
 */
module FileScanner {
  import opened Values
  import opened Text
  import opened Seqs
  import opened Sorting
  import opened Grouping
  import Metadata

  datatype Post = Post(stem: string, metadata: map<string, Value>, content: string)

  // ---------------------------------------------------------------------
  // Sorting by date.
  // ---------------------------------------------------------------------

  /** `post["metadata"].get("date", "")`, for a post whose date is a string or absent. */
  function DateKey(p: Post): string
  {
    var d := Get(p.metadata, "date", VStr(""));
    if d.VStr? then d.s else ""
  }

  /**
   * Every date key is a string, so that any two compare. Python raises a
   * TypeError when asked to order a string key against a key of another type.
   */
  predicate StringDates(posts: seq<Post>)
  {
    forall i :: 0 <= i < |posts| ==> Get(posts[i].metadata, "date", VStr("")).VStr?
  }

  /** The order `reverse` selects: descending dates when true. */
  function DateOrder(reverse: bool): (string, string) -> bool
  {
    if reverse then Reverse(StrLt) else StrLt
  }

  lemma DateOrderIsStrictTotalOrder(reverse: bool)
    ensures StrictTotalOrder(DateOrder(reverse))
  {
    StrLtIsStrictTotalOrder();
    ReverseIsStrictTotalOrder(StrLt);
  }

  /** `DateKey(a)` may precede `DateKey(b)` in the order `reverse` selects. */
  predicate DatesInOrder(a: Post, b: Post, reverse: bool)
  {
    if reverse then !StrLt(DateKey(a), DateKey(b)) else !StrLt(DateKey(b), DateKey(a))
  }

  /** `sort_by_date`: a rearrangement of the posts whose date strings run in the chosen direction. */
  function SortByDate(posts: seq<Post>, reverse: bool): (r: seq<Post>)
    requires StringDates(posts)
    ensures multiset(r) == multiset(posts)
    ensures forall i, j :: 0 <= i < j < |r| ==> DatesInOrder(r[i], r[j], reverse)
  {
    DateOrderIsStrictTotalOrder(reverse);
    StableSortSorted(posts, DateKey, DateOrder(reverse));
    StableSortPermutation(posts, DateKey, DateOrder(reverse));
    StableSort(posts, DateKey, DateOrder(reverse))
  }

  /** Posts with equal date keys keep their input order, in either direction. */
  lemma SortByDateStable(posts: seq<Post>, reverse: bool, date: string)
    requires StringDates(posts)
    ensures KeyFilter(SortByDate(posts, reverse), DateKey, date) == KeyFilter(posts, DateKey, date)
  {
    DateOrderIsStrictTotalOrder(reverse);
    StableSortKeyFilter(posts, DateKey, DateOrder(reverse), date);
  }

  /**
   * The order and the stability determine the result: any arrangement that
   * is ordered by date and keeps equal dates in input order is SortByDate's.
   */
  lemma SortByDateUnique(posts: seq<Post>, reverse: bool, r: seq<Post>)
    requires StringDates(posts)
    requires forall i, j :: 0 <= i < j < |r| ==> DatesInOrder(r[i], r[j], reverse)
    requires forall date :: KeyFilter(r, DateKey, date) == KeyFilter(posts, DateKey, date)
    ensures r == SortByDate(posts, reverse)
  {
    DateOrderIsStrictTotalOrder(reverse);
    forall date ensures KeyFilter(SortByDate(posts, reverse), DateKey, date) == KeyFilter(r, DateKey, date) {
      SortByDateStable(posts, reverse, date);
    }
    SortedStableUnique(SortByDate(posts, reverse), r, DateKey, DateOrder(reverse));
  }

  /** Newest first: a missing date counts as "", so undated posts come after every dated one. */
  lemma UndatedLast(posts: seq<Post>)
    requires StringDates(posts)
    ensures var r := SortByDate(posts, true);
      forall i, j :: 0 <= i < j < |r| && DateKey(r[i]) == "" ==> DateKey(r[j]) == ""
  {
    var r := SortByDate(posts, true);
    forall i, j | 0 <= i < j < |r| && DateKey(r[i]) == "" ensures DateKey(r[j]) == "" {
      assert DatesInOrder(r[i], r[j], true);
    }
  }

  // ---------------------------------------------------------------------
  // Pinned posts first.
  // ---------------------------------------------------------------------

  /** `not post["metadata"].get("pinned", False)`: false, the smaller key, for pinned posts. */
  function UnpinnedKey(p: Post): bool
  {
    !Truthy(Get(p.metadata, "pinned", VBool(false)))
  }

  /** Python's order on bools: False < True. */
  predicate BoolLt(a: bool, b: bool)
  {
    !a && b
  }

  lemma BoolLtIsStrictTotalOrder()
    ensures StrictTotalOrder(BoolLt)
  {
  }

  /**
   * `sort_by_pinned_and_date`: the date sort, then a stable sort on the
   * pinned flag. Pinned posts come first.
   */
  function SortByPinnedAndDate(posts: seq<Post>, reverse: bool): (r: seq<Post>)
    requires StringDates(posts)
    ensures multiset(r) == multiset(posts)
    ensures forall i, j :: 0 <= i < j < |r| && !UnpinnedKey(r[j]) ==> !UnpinnedKey(r[i])
  {
    var byDate := SortByDate(posts, reverse);
    BoolLtIsStrictTotalOrder();
    StableSortSorted(byDate, UnpinnedKey, BoolLt);
    StableSortPermutation(byDate, UnpinnedKey, BoolLt);
    StableSort(byDate, UnpinnedKey, BoolLt)
  }

  /**
   * Within the pinned posts and within the others, the order is the date
   * sort's, so each of the two groups runs in date order.
   */
  lemma PinnedGroupsKeepDateOrder(posts: seq<Post>, reverse: bool, unpinned: bool)
    requires StringDates(posts)
    ensures var group := KeyFilter(SortByPinnedAndDate(posts, reverse), UnpinnedKey, unpinned);
      && group == KeyFilter(SortByDate(posts, reverse), UnpinnedKey, unpinned)
      && forall i, j :: 0 <= i < j < |group| ==> DatesInOrder(group[i], group[j], reverse)
  {
    var byDate := SortByDate(posts, reverse);
    BoolLtIsStrictTotalOrder();
    StableSortKeyFilter(byDate, UnpinnedKey, BoolLt, unpinned);
    DateOrderIsStrictTotalOrder(reverse);
    KeyFilterSorted(byDate, UnpinnedKey, unpinned, DateKey, DateOrder(reverse));
    var group := KeyFilter(byDate, UnpinnedKey, unpinned);
    forall i, j | 0 <= i < j < |group| ensures DatesInOrder(group[i], group[j], reverse) {
      assert !DateOrder(reverse)(DateKey(group[j]), DateKey(group[i]));
    }
  }

  // ---------------------------------------------------------------------
  // Grouping by category.
  // ---------------------------------------------------------------------

  /** `post["metadata"].get("category", "未分类")`. */
  function CategoryOf(p: Post): Value
  {
    Get(p.metadata, "category", VStr(Metadata.Uncategorized))
  }

  function CategoryKeys(p: Post): seq<Value>
  {
    [CategoryOf(p)]
  }

  /** Every category can be a dict key (a list cannot: Python raises a TypeError). */
  predicate HashableCategories(posts: seq<Post>)
  {
    forall i :: 0 <= i < |posts| ==> Hashable(CategoryOf(posts[i]))
  }

  /** `group_by_category`: one bucket per category, in first-seen order. */
  method GroupByCategory(posts: seq<Post>) returns (categories: Groups<Value, Post>)
    requires HashableCategories(posts)
    ensures categories == Grouped(posts, CategoryKeys)
  {
    var keys: seq<Value> := [];
    var buckets: map<Value, seq<Post>> := map[];
    for i := 0 to |posts|
      invariant Groups(keys, buckets) == Fold(posts[..i], CategoryKeys)
    {
      var post := posts[i];
      var category := Get(post.metadata, "category", VStr(Metadata.Uncategorized));
      ghost var before := Groups(keys, buckets);
      if category !in buckets {
        keys := keys + [category];
        buckets := buckets[category := []];
      }
      buckets := buckets[category := buckets[category] + [post]];
      AddApplied(before, category, post, keys, buckets);
      assert posts[..i + 1][..i] == posts[..i];
      assert AddAll(before, [category], post) == Add(before, category, post);
    }
    assert posts[..|posts|] == posts;
    FoldIsGrouped(posts, CategoryKeys);
    categories := Groups(keys, buckets);
  }

  /**
   * The category keys are the posts' categories (visited one per post, in
   * input order), each once, in first-seen order. No posts, no keys.
   */
  lemma CategoryKeysFirstSeen(posts: seq<Post>)
    ensures var visited := AllKeys(posts, CategoryKeys);
      var g := Grouped(posts, CategoryKeys);
      && |visited| == |posts|
      && (forall i :: 0 <= i < |posts| ==> visited[i] == CategoryOf(posts[i]))
      && g.keys == FirstSeen(visited)
      && (forall k :: k in g.buckets <==> k in visited)
      && (posts == [] ==> g.keys == [] && g.buckets == map[])
  {
    SingleKey(posts, CategoryKeys, CategoryOf, VStr(""));
    GroupedKeys(posts, CategoryKeys);
  }

  /**
   * Category grouping is a partition: each bucket is exactly the posts of its
   * category, in input order, so every post is in its category's bucket and
   * in no other.
   */
  lemma CategoryPartition(posts: seq<Post>)
    ensures var g := Grouped(posts, CategoryKeys);
      && (forall k :: k in g.buckets ==> g.buckets[k] == KeyFilter(posts, CategoryOf, k))
      && (forall i :: 0 <= i < |posts| ==> CategoryOf(posts[i]) in g.buckets && posts[i] in g.buckets[CategoryOf(posts[i])])
      && (forall k, p :: k in g.buckets && p in g.buckets[k] ==> CategoryOf(p) == k)
  {
    var g := Grouped(posts, CategoryKeys);
    forall k | k in g.buckets ensures g.buckets[k] == KeyFilter(posts, CategoryOf, k) {
      SingleKey(posts, CategoryKeys, CategoryOf, k);
    }
    forall i | 0 <= i < |posts| ensures CategoryOf(posts[i]) in g.buckets && posts[i] in g.buckets[CategoryOf(posts[i])] {
      PostInCategory(posts, i);
    }
    forall k, p | k in g.buckets && p in g.buckets[k] ensures CategoryOf(p) == k {
      SingleKey(posts, CategoryKeys, CategoryOf, k);
      KeyFilterMembers(posts, CategoryOf, k);
    }
  }

  /** The `i`-th post has a bucket, its category's, and sits in it. */
  lemma PostInCategory(posts: seq<Post>, i: nat)
    requires i < |posts|
    ensures var g := Grouped(posts, CategoryKeys);
      CategoryOf(posts[i]) in g.buckets && posts[i] in g.buckets[CategoryOf(posts[i])]
  {
    CategoryKeysFirstSeen(posts);
    SingleKey(posts, CategoryKeys, CategoryOf, CategoryOf(posts[i]));
    KeyFilterContains(posts, CategoryOf, i);
  }

  /** The category bucket sizes add up to the number of posts. */
  lemma CategorySizes(posts: seq<Post>)
    ensures var g := Grouped(posts, CategoryKeys);
      && (forall i :: 0 <= i < |g.keys| ==> g.keys[i] in g.buckets)
      && SizeSum(g.keys, g.buckets) == |posts|
  {
    SingleKey(posts, CategoryKeys, CategoryOf, VStr(""));
    BucketSizesSum(posts, CategoryKeys);
  }

  // ---------------------------------------------------------------------
  // Grouping by tags.
  // ---------------------------------------------------------------------

  /**
   * What `for tag in post["metadata"].get("tags", [])` visits: the items of
   * a list, the one-character strings of a string.
   */
  function ScannerTags(p: Post): seq<Value>
  {
    match Get(p.metadata, "tags", VList([]))
    case VList(items) => items
    case VStr(s) => seq(|s|, i requires 0 <= i < |s| => VStr([s[i]]))
    case _ => []
  }

  /**
   * Every post's tags can be iterated and every tag can be a dict key: Python
   * raises a TypeError on a number, bool, None or date, and on a list tag.
   */
  predicate IterableTags(posts: seq<Post>)
  {
    forall i :: 0 <= i < |posts| ==>
      var t := Get(posts[i].metadata, "tags", VList([]));
      && (t.VList? || t.VStr?)
      && (t.VList? ==> forall j :: 0 <= j < |t.items| ==> Hashable(t.items[j]))
  }

  /** `group_by_tags`: a post is appended to a tag's bucket once per occurrence of the tag. */
  method GroupByTags(posts: seq<Post>) returns (tags: Groups<Value, Post>)
    requires IterableTags(posts)
    ensures tags == Grouped(posts, ScannerTags)
  {
    var keys: seq<Value> := [];
    var buckets: map<Value, seq<Post>> := map[];
    for i := 0 to |posts|
      invariant Groups(keys, buckets) == Fold(posts[..i], ScannerTags)
    {
      var post := posts[i];
      var postTags := ScannerTags(post);
      ghost var start := Groups(keys, buckets);
      for j := 0 to |postTags|
        invariant Groups(keys, buckets) == AddAll(start, postTags[..j], post)
      {
        var tag := postTags[j];
        ghost var before := Groups(keys, buckets);
        if tag !in buckets {
          keys := keys + [tag];
          buckets := buckets[tag := []];
        }
        buckets := buckets[tag := buckets[tag] + [post]];
        AddApplied(before, tag, post, keys, buckets);
        assert postTags[..j + 1][..j] == postTags[..j];
      }
      assert postTags[..|postTags|] == postTags;
      assert posts[..i + 1][..i] == posts[..i];
    }
    assert posts[..|posts|] == posts;
    FoldIsGrouped(posts, ScannerTags);
    tags := Groups(keys, buckets);
  }

  /** The tag keys are the tags met, each once, in first-seen order. No posts, no keys. */
  lemma TagKeysFirstSeen(posts: seq<Post>)
    ensures var g := Grouped(posts, ScannerTags);
      && g.keys == FirstSeen(AllKeys(posts, ScannerTags))
      && (forall k :: k in g.buckets <==> k in AllKeys(posts, ScannerTags))
      && (posts == [] ==> g.keys == [] && g.buckets == map[])
  {
    GroupedKeys(posts, ScannerTags);
  }

  /**
   * Tag grouping is many-to-many: a post sits in a tag's bucket once per
   * occurrence of the tag among its tags, so a duplicated tag counts twice and
   * an untagged post is in no bucket.
   */
  lemma TagMultiplicity(posts: seq<Post>)
    ensures var g := Grouped(posts, ScannerTags);
      && (forall k, p :: k in g.buckets ==>
            multiset(g.buckets[k])[p] == multiset(posts)[p] * multiset(ScannerTags(p))[k])
      && (forall k, p :: k in g.buckets && ScannerTags(p) == [] ==> p !in g.buckets[k])
  {
    var g := Grouped(posts, ScannerTags);
    forall k, p | k in g.buckets
      ensures multiset(g.buckets[k])[p] == multiset(posts)[p] * multiset(ScannerTags(p))[k]
    {
      BucketMultiplicity(posts, ScannerTags, k, p);
    }
    forall k, p | k in g.buckets && ScannerTags(p) == [] ensures p !in g.buckets[k] {
      BucketWithoutKey(posts, ScannerTags, k, p);
    }
  }

  /** The tag bucket sizes add up to the number of tags over all posts. */
  lemma TagSizes(posts: seq<Post>)
    ensures var g := Grouped(posts, ScannerTags);
      && (forall i :: 0 <= i < |g.keys| ==> g.keys[i] in g.buckets)
      && SizeSum(g.keys, g.buckets) == |AllKeys(posts, ScannerTags)|
  {
    BucketSizesSum(posts, ScannerTags);
  }
}
