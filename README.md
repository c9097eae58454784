# iblog content indexing, modelled in Dafny

iblog is a static blog generator. This project models its content-indexing
core and proves properties of that model. The core has five parts:

- **Metadata normalisation** (`Metadata`, from `MetadataParser`). It fills in
  the defaults and fixes the shapes of `title`, `tags`, `category`, `author`,
  `date` and `pinned` in a post's front matter.
- **Ordering and grouping of posts** (`FileScanner`, from `FileScanner`).
  This covers the stable date sort, the "pinned first, then by date" sort,
  the one-bucket-per-post category grouping and the many-to-many tag
  grouping.
- **Table of contents** (`Toc`, from `TocExtractor` and `TocGenerator`).
  - A class holds the extractor's four fields. Its callbacks are methods
    proved against a state-machine function.
  - A heading's text becomes a slug. Repeated slugs are numbered per
    document.
  - A second pass writes `id="…"` into the first matching heading of each
    entry.
- **Tag pages** (`TagPages`, from `TagGenerator`). These are the tag
  grouping, the tag-cloud entries (count, URL, font size) sorted by count,
  and the date order of each tag page.
- **Category pages** (`CategoryPages`, from `CategoryGenerator`). These are
  the category entries (count, newest post, URL) sorted by count, and the
  date order of each category page.

Shared building blocks:

| module | what it provides |
|---|---|
| `Values` | front-matter values, with Python's `bool`, `str` and hashability |
| `Dates` | calendar dates and their `%Y-%m-%d` text |
| `Text` | string order, `strip`, `split`/`join`, `str(int)`, lower-casing |
| `Sorting` | Python's stable `sorted`, with `reverse=True` |
| `Grouping` | a dict of lists filled in a loop, in insertion order |
| `Seqs` | sequence facts |
| `Wrappers` | `Option` |

How Python constructs are represented:

- **Dicts built in a loop** are `Groups(keys, buckets)`: the key list in
  insertion order, plus a map.
- **Sorting.** `sorted(key=…, reverse=True)` is a stable insertion sort under
  the reversed key order.
- **HTML** is the parser's token stream: each token pairs the callback it
  causes with the text it is written as.

## Model

| member | source | states |
|---|---|---|
| Metadata.NewMetadataParser | src/iblog/core/metadata_parser.py:18-22 | The parser takes the configured category and tags. Its author is the configured one, or the site author when that is empty. |
| Metadata.FactoryParser | src/iblog/core/config_models.py:166-170 | An unconfigured parser defaults to category "未分类", no tags and the site author. |
| Metadata.ValidateMetadata | src/iblog/core/metadata_parser.py:41-90 | The step-by-step rewrites of a copy of the record yield exactly the normalised record. |
| Metadata.Parse | src/iblog/core/metadata_parser.py:24-39 | When the header cannot be loaded, the result is no metadata and the whole text as body. Otherwise it is the normalised fields and the loaded body. |
| Metadata.NormalizedShape | src/iblog/core/metadata_parser.py:50-90 | The keys afterwards are the input keys plus the six handled ones. Other keys are unchanged. Tags are a list, `pinned` is a bool, and the date is no longer a date object. |
| Metadata.PresentFieldsKept | src/iblog/core/metadata_parser.py:53-88 | Present fields already in shape are unchanged: a title, a list of tags, a category, an author, a string date and a bool `pinned`. |
| Metadata.AbsentFieldsDefaulted | src/iblog/core/metadata_parser.py:53-85 | Absent fields get their defaults: "无标题", the default tags, the default category, the default author, "" and False. |
| Metadata.TagStringSplit | src/iblog/core/metadata_parser.py:57-59 | A tags string becomes its comma-separated pieces, each stripped. The pieces join back to the string, and no tag holds a comma. |
| Metadata.TagScalarWrapped | src/iblog/core/metadata_parser.py:60-61 | A tags value that is neither a string nor a list becomes `[str(v)]`. |
| Metadata.DateFormatted | src/iblog/core/metadata_parser.py:79-81 | A date object becomes ten characters, from which its year, month and day read back. |
| Metadata.PinnedCoerced | src/iblog/core/metadata_parser.py:83-88 | A present `pinned` becomes its truthiness. |
| Metadata.PinnedStringFalseIsTrue | src/iblog/core/metadata_parser.py:86-88 | The string "false" counts as pinned. |
| Metadata.NormalizedIdempotent | src/iblog/core/metadata_parser.py:41-90 | Normalising a normalised record changes nothing. |
| Metadata.TagStringExample | tests/test_core.py:60-65 | "python, test" becomes ["python", "test"]. |
| Dates.FormatOrder | src/iblog/core/metadata_parser.py:79-81 | Formatted dates compare as strings exactly as the dates compare in time, and are equal only for equal dates. |
| Dates.FormatFields | src/iblog/core/metadata_parser.py:81 | `%Y-%m-%d` text holds the year, the month and the day at fixed positions. |
| FileScanner.SortByDate | src/iblog/core/file_scanner.py:76-80 | The result is a permutation of the posts, with date strings in the chosen direction. |
| FileScanner.SortByDateStable | src/iblog/core/file_scanner.py:76-80 | Posts with equal date keys keep their input order, in either direction. |
| FileScanner.SortByDateUnique | src/iblog/core/file_scanner.py:76-80 | Any arrangement that is date-ordered and keeps equal dates in input order is the sort's result. |
| FileScanner.UndatedLast | src/iblog/core/file_scanner.py:76-80 | Newest first, a post without a date comes after every dated post. |
| FileScanner.SortByPinnedAndDate | src/iblog/core/file_scanner.py:92-103 | The result is a permutation, and every pinned post precedes every unpinned one. |
| FileScanner.PinnedGroupsKeepDateOrder | src/iblog/core/file_scanner.py:98-102 | Within the pinned and the unpinned posts, the order is the date sort's, so each group is date-ordered. |
| FileScanner.GroupByCategory | src/iblog/core/file_scanner.py:114-122 | The loop's dict is the category grouping of the posts; the category page generator runs the same loop (src/iblog/generators/category_generator.py:71-79) and uses this member. |
| FileScanner.CategoryKeysFirstSeen | src/iblog/core/file_scanner.py:114-122 | The keys are each post's category, or "未分类" when it has none. Each appears once, in first-seen order. No posts gives an empty dict. |
| FileScanner.CategoryPartition | src/iblog/core/file_scanner.py:114-122 | Each bucket is exactly its category's posts in input order. Every post is in its own category's bucket and in no other. |
| FileScanner.CategorySizes | src/iblog/core/file_scanner.py:114-122 | The bucket sizes sum to the number of posts. |
| FileScanner.GroupByTags | src/iblog/core/file_scanner.py:133-142 | The nested loops' dict is the tag grouping of the tags each post iterates over. |
| FileScanner.TagKeysFirstSeen | src/iblog/core/file_scanner.py:133-142 | The keys are the tags met, each once, in first-seen order. No posts gives an empty dict. |
| FileScanner.TagMultiplicity | src/iblog/core/file_scanner.py:133-142 | A post is in a tag's bucket once per occurrence of the tag among its tags. An untagged post is in no bucket. |
| FileScanner.TagSizes | src/iblog/core/file_scanner.py:133-142 | The bucket sizes sum to the number of tags over all posts. |
| Toc.TocExtractor.constructor | src/iblog/core/toc_generator.py:20-25 | A new extractor has no entries, no open heading, no text and an empty counter. |
| Toc.TocExtractor.HandleStartTag | src/iblog/core/toc_generator.py:27-31 | An h1-h6 start tag opens that heading and drops collected text. Any other tag changes nothing. |
| Toc.TocExtractor.HandleData | src/iblog/core/toc_generator.py:33-36 | Text is collected only while a heading is open. |
| Toc.TocExtractor.HandleEndTag | src/iblog/core/toc_generator.py:38-50 | The open heading's end tag closes it. It adds an entry (level, stripped joined text, fresh id) only when that text is non-empty. |
| Toc.TocExtractor.GenerateId | src/iblog/core/toc_generator.py:52-69 | The id and the new counter are those of the numbering rule. The other fields are unchanged. |
| Toc.TocExtractor.Feed | src/iblog/core/toc_generator.py:86 | Feeding a document makes one callback per event, in order. |
| Toc.ExtractToc | src/iblog/core/toc_generator.py:75-95 | A fresh extractor is fed the document, and its entries are returned. |
| Toc.Level | src/iblog/core/toc_generator.py:41 | A heading's level is between 1 and 6. |
| Toc.BaseSlugShape | src/iblog/core/toc_generator.py:54-61 | A base slug is non-empty. It contains no whitespace, "_" or ASCII capital, and neither starts nor ends with "-". |
| Toc.BaseSlugIdempotent | src/iblog/core/toc_generator.py:54-61 | Slugging a slug gives it back. |
| Toc.StripDashesIsTrim | src/iblog/core/toc_generator.py:57 | Stripping "-" removes exactly the leading and trailing dashes. |
| Toc.NumberedInjective | src/iblog/core/toc_generator.py:63-69 | Different repeat counts of one base give different ids. |
| Toc.TocIdsNumbered | src/iblog/core/toc_generator.py:63-69 | The id of entry p is its base, numbered by how many earlier entries share that base (`base`, `base-1`, `base-2`, …). |
| Toc.EqualBasesDistinctIds | src/iblog/core/toc_generator.py:63-69 | Two entries of one document with the same base have different ids. |
| Toc.CrossBaseCollision | src/iblog/core/toc_generator.py:63-69 | The first repeat of any base equals the base of the heading "<base> 1", so ids are not unique across bases. |
| Toc.TocOfPrefix | src/iblog/core/toc_generator.py:88-95 | Entries come in document order. A prefix of a document yields a prefix of its entries. |
| Toc.HeadingSpan | src/iblog/core/toc_generator.py:27-50 | For a start tag, data and the matching end tag: an entry is added exactly when the stripped joined text is non-empty, with the heading's level, that text and the next id. The heading is then closed. |
| Toc.UnclosedHeading | src/iblog/core/toc_generator.py:38-50 | A heading never closed adds no entry and does not advance the counter. |
| Toc.ReopenDiscards | src/iblog/core/toc_generator.py:27-31 | A heading start tag inside an open heading discards the first heading's text and tag. |
| Toc.TocWellFormed | src/iblog/core/toc_generator.py:40-47 | Every entry has a level from 1 to 6 and a non-empty text that is already stripped. |
| Toc.TaggedIsNotOpen | src/iblog/core/toc_generator.py:114-115 | A heading that received an id no longer matches the bare `<hN>` pattern. |
| Toc.FirstMatch | src/iblog/core/toc_generator.py:114-116 | This is the leftmost position where the entry's pattern matches, or none. |
| Toc.SubstituteFirst | src/iblog/core/toc_generator.py:114-116 | With count=1, exactly the leftmost matching heading changes, and it becomes `<hN id="ID">`. |
| Toc.AddHeadingIds | src/iblog/core/toc_generator.py:97-118 | The loop applies one substitution per extracted entry, in entry order. |
| Toc.ApplyIdsChanges | src/iblog/core/toc_generator.py:111-116 | At most one heading changes per entry. Each change turns a `<hN>` of some entry's level into that entry's tagged heading. |
| Toc.SubstituteAtMostOne | src/iblog/core/toc_generator.py:116 | One substitution changes at most one token. |
| Toc.AddedIdsAreTocIds | src/iblog/core/toc_generator.py:97-118 | A document from which no TOC entry is extracted (no headings, or only headings whose stripped text is empty) is unchanged. Otherwise at most one token changes per entry, and each changed token carries an extracted entry's id. |
| TagPages.GroupByTags | src/iblog/generators/tag_generator.py:64-80 | The loop's dict is the tag grouping. Posts whose tags are not a list are skipped. |
| TagPages.TagBuckets | src/iblog/generators/tag_generator.py:75-78 | A post is in a tag's bucket once per occurrence of the tag in its list. |
| TagPages.UntaggedInNoBucket | src/iblog/generators/tag_generator.py:68-72 | A post whose tags are not a list, or an empty list, is in no bucket. |
| TagPages.TagBucketsNonEmpty | src/iblog/generators/tag_generator.py:76-78 | Every tag's bucket has a post. |
| TagPages.TagKeys | src/iblog/generators/tag_generator.py:64-80 | The keys are distinct and in first-seen order, and match the buckets. There are none exactly when no post lists a tag. |
| TagPages.MaxOver | src/iblog/generators/tag_generator.py:94 | The maximum bucket size bounds every bucket and is reached by one. |
| TagPages.CalculateTagStats | src/iblog/generators/tag_generator.py:82-116 | The append loop followed by the sort yields the entries in key order, stably sorted by count, largest first. |
| TagPages.StatsEntries | src/iblog/generators/tag_generator.py:96-111 | Every entry is some tag's: its post count, URL `str(name) + ".html"` and font size. |
| TagPages.StatsPerTag | src/iblog/generators/tag_generator.py:96-114 | There are as many entries as tags, and no tag has two. |
| TagPages.StatsCoverTags | src/iblog/generators/tag_generator.py:96-114 | Every tag has an entry. |
| TagPages.StatsOrder | src/iblog/generators/tag_generator.py:114 | Counts never increase along the list. Tags with equal counts keep their first-seen order. |
| TagPages.FontSizeRange | src/iblog/generators/tag_generator.py:101-104 | With a maximum above 1, sizes lie in (0.9, 1.7], and 1.7 exactly for the maximum count. Otherwise every size is 1.2. |
| TagPages.StatsFontSizes | src/iblog/generators/tag_generator.py:94-111 | Every entry of the produced cloud has a size in (0.9, 1.7] em, and 1.7 exactly for the tags with the most posts; 1.2 em for all when no tag has more than one post. |
| TagPages.CountsWithinMax | src/iblog/generators/tag_generator.py:94-97 | Every count is between 1 and the maximum, and some tag reaches the maximum. |
| TagPages.RenderDetails | src/iblog/generators/tag_generator.py:50-51 | The detail loop yields one page per tag, in key order. |
| TagPages.Generate | src/iblog/generators/tag_generator.py:31-51 | There are no pages exactly when there are no posts or no post lists a tag. Otherwise the result is the entries, the post total and the detail pages. |
| TagPages.DetailPages | src/iblog/generators/tag_generator.py:143-147 | Page i is the i-th tag's. It lists a permutation of that tag's posts, newest first, with equal dates in input order. |
| CategoryPages.LatestOf | src/iblog/generators/category_generator.py:90-91 | There is no newest post exactly when the list is empty. |
| CategoryPages.LatestIsNewest | src/iblog/generators/category_generator.py:94-104 | The summary is the title (default "无标题") and date (default "") of a post with the greatest date string, the earliest such post in the list. |
| CategoryPages.NewestIsLatest | src/iblog/generators/category_generator.py:94-104 | Conversely, the first post with the greatest date is the one summarised. |
| CategoryPages.CalculateCategoryStats | src/iblog/generators/category_generator.py:40-51 | The append loop followed by the sort yields the entries in key order, stably sorted by count, largest first. |
| CategoryPages.StatsEntries | src/iblog/generators/category_generator.py:41-48 | Every entry is some category's: its post count, newest post and URL `f'{name}.html'`. |
| CategoryPages.StatsPerCategory | src/iblog/generators/category_generator.py:40-51 | There are as many entries as categories, and no category has two. |
| CategoryPages.StatsCoverCategories | src/iblog/generators/category_generator.py:40-51 | Every category has an entry. |
| CategoryPages.StatsOrder | src/iblog/generators/category_generator.py:51 | Counts never increase along the list. Categories with equal counts keep their first-seen order. |
| CategoryPages.StatOfPosts | src/iblog/generators/category_generator.py:36-48 | An entry's count is the number of posts in its category, and its newest post is that of those posts. |
| CategoryPages.StatsOfPostsDistinct | src/iblog/generators/category_generator.py:36-51 | There is one entry per category of the posts and none twice. |
| CategoryPages.StatsCoverPosts | src/iblog/generators/category_generator.py:36-51 | Every post's category has an entry. |
| CategoryPages.RenderDetails | src/iblog/generators/category_generator.py:56-57 | The detail loop yields one page per category, in key order. |
| CategoryPages.Generate | src/iblog/generators/category_generator.py:31-58 | There are no pages exactly when there are no posts. Otherwise the result is the entries, the post total and the detail pages. |
| CategoryPages.DetailPages | src/iblog/generators/category_generator.py:131-135 | Page i is the i-th category's. It lists a permutation of exactly that category's posts, newest first, with equal dates in input order. |

## Left out

- File system work is not modelled. That covers globbing and reading files in `scan_directory`, `mkdir` and `write_text` in the generators, and logging. A post is given as its file stem, its metadata and its body.
- YAML front-matter parsing is not modelled. The loader's result is an input of `Parse`, either unparsable or fields plus body.
- HTML tokenisation, and the decoding of character references in it, are not modelled. The extractor is fed the parser's callbacks.
- Page rendering (Jinja templates) is not modelled. The generators return what they would render: entries, the post total and detail lists.
- Toc.BaseSlug: `\w` and `str.lower` are exact on ASCII only. Outside ASCII, letters are not lower-cased. Word characters are approximated as every character that is neither whitespace nor in a fixed list of punctuation and symbol ranges.
- Toc.SubstituteFirst: the regex is matched at token granularity. A match begins at a token written exactly `<hN>` and stays within that heading. Python's `.*?` can also run across several headings on one line and tag an earlier heading. The model assumes each token's text is what the parser saw.
- Toc.CrossBaseCollision: the numbering can give two headings the same id (headings "A", "A", "A 1" give `a`, `a-1`, `a-1`). This is proved as the source behaves, not corrected.
- TagPages.FontSize: the size is a real number. Its `"%.2fem"` text formatting is left out.
- Dates.Format: years below 1000 are padded to four digits. A platform's `strftime` may not pad them.
- Values: floats, dicts and datetimes other than dates are not among the front-matter values. Python treating `1` and `True` as the same dict key is not modelled.
- FileScanner.SortByDate, TagPages.Generate, CategoryPages.Generate: all dates being strings (or absent) is required. Python raises TypeError when comparing a string with another type. It also raises only when two keys are actually compared, and sorts all-integer dates without error, so the requirement is stronger than Python's.
- FileScanner.SortByDateStable, FileScanner.SortByDateUnique, FileScanner.UndatedLast: the same string-dates requirement as FileScanner.SortByDate.
- FileScanner.SortByPinnedAndDate, FileScanner.PinnedGroupsKeepDateOrder: the same string-dates requirement, since the date sort runs first.
- CategoryPages.LatestOf, CategoryPages.LatestIsNewest, CategoryPages.NewestIsLatest: the same string-dates requirement on the category's posts.
- CategoryPages.StatOfPosts, CategoryPages.StatsOfPostsDistinct, CategoryPages.StatsCoverPosts, CategoryPages.DetailPages: the same string-dates requirement on all posts.
- TagPages.RenderDetails, TagPages.DetailPages: the same requirement, on the posts that list a tag (the only ones the tag pages sort).
- FileScanner.GroupByCategory, FileScanner.GroupByTags, TagPages.GroupByTags: the requirement that keys be hashable and tags iterable stands for the TypeError Python raises otherwise.
- TagPages.Generate, CategoryPages.Generate: the post total `len(posts)` is part of the result, and rendering is not modelled.
- MetadataParser's key order is not modelled, because metadata is a map. Only the order of grouping keys is kept.
