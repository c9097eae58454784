/**
 * The metadata normaliser (`MetadataParser`): fills in defaults and fixes
 * the shapes of the six fields every later stage reads.
 */
module Metadata {
  import opened Values
  import opened Text
  import opened Dates

  const Untitled := "无标题"
  const Uncategorized := "未分类"

  /** The six keys every normalised record has. */
  const NormalizedKeys: set<string> := {"title", "tags", "category", "author", "date", "pinned"}

  /** `config.posts.defaults`: the configured default category, tags and author. */
  datatype PostsDefaults = PostsDefaults(category: string, tags: seq<string>, author: string)

  /** The defaults a configuration file that sets nothing gets. */
  const FactoryDefaults := PostsDefaults(Uncategorized, [], "")

  /** The defaults a parser resolved from its configuration when it was built. */
  datatype MetadataParser = MetadataParser(defaultCategory: string, defaultTags: seq<string>, defaultAuthor: string)

  /** `MetadataParser(config)`: the per-post default author falls back to the site author when empty. */
  function NewMetadataParser(defaults: PostsDefaults, siteAuthor: string): (p: MetadataParser)
    ensures p.defaultCategory == defaults.category && p.defaultTags == defaults.tags
    ensures defaults.author != "" ==> p.defaultAuthor == defaults.author
    ensures defaults.author == "" ==> p.defaultAuthor == siteAuthor
  {
    MetadataParser(defaults.category, defaults.tags, if defaults.author != "" then defaults.author else siteAuthor)
  }

  lemma FactoryParser(siteAuthor: string)
    ensures NewMetadataParser(FactoryDefaults, siteAuthor)
         == MetadataParser(Uncategorized, [], siteAuthor)
  {
  }

  function StrValues(ss: seq<string>): (vs: seq<Value>)
    ensures |vs| == |ss| && forall i :: 0 <= i < |ss| ==> vs[i] == VStr(ss[i])
  {
    seq(|ss|, i requires 0 <= i < |ss| => VStr(ss[i]))
  }

  /** `[tag.strip() for tag in s.split(",")]`. */
  function SplitTags(s: string): seq<Value>
  {
    var pieces := Split(s, ',');
    seq(|pieces|, i requires 0 <= i < |pieces| => VStr(Strip(pieces[i])))
  }

  // ---------------------------------------------------------------------
  // The normalised record, field by field.
  // ---------------------------------------------------------------------

  function NormalizedTitle(m: map<string, Value>): Value
  {
    if "title" in m then m["title"] else VStr(Untitled)
  }

  function NormalizedTags(p: MetadataParser, m: map<string, Value>): Value
  {
    if "tags" !in m then VList(StrValues(p.defaultTags))
    else if m["tags"].VStr? then VList(SplitTags(m["tags"].s))
    else if m["tags"].VList? then m["tags"]
    else VList([VStr(ToStr(m["tags"]))])
  }

  function NormalizedCategory(p: MetadataParser, m: map<string, Value>): Value
  {
    if "category" in m then m["category"] else VStr(p.defaultCategory)
  }

  function NormalizedAuthor(p: MetadataParser, m: map<string, Value>): Value
  {
    if "author" in m then m["author"] else VStr(p.defaultAuthor)
  }

  function NormalizedDate(m: map<string, Value>): Value
  {
    var date := if "date" in m then m["date"] else VStr("");
    if date.VDate? then VStr(Format(date.date)) else date
  }

  function NormalizedPinned(m: map<string, Value>): Value
  {
    if "pinned" !in m then VBool(false)
    else if m["pinned"].VBool? then m["pinned"]
    else VBool(Truthy(m["pinned"]))
  }

  /** The record `validate_metadata` returns for `m`. */
  function Normalized(p: MetadataParser, m: map<string, Value>): map<string, Value>
  {
    m["title" := NormalizedTitle(m)]
     ["tags" := NormalizedTags(p, m)]
     ["category" := NormalizedCategory(p, m)]
     ["author" := NormalizedAuthor(p, m)]
     ["date" := NormalizedDate(m)]
     ["pinned" := NormalizedPinned(m)]
  }

  /**
   * `validate_metadata`: copies the record, then rewrites it key by key.
   * The caller's record is a value and cannot change.
   */
  method ValidateMetadata(p: MetadataParser, metadata: map<string, Value>) returns (validated: map<string, Value>)
    ensures validated == Normalized(p, metadata)
  {
    assert |"title"| == 5 && |"tags"| == 4 && |"category"| == 8 && |"author"| == 6 && |"date"| == 4 && |"pinned"| == 6;
    assert "tags" != "date" && "author" != "pinned";
    ghost var withTitle := metadata["title" := NormalizedTitle(metadata)];
    ghost var withTags := withTitle["tags" := NormalizedTags(p, metadata)];
    ghost var withCategory := withTags["category" := NormalizedCategory(p, metadata)];
    ghost var withAuthor := withCategory["author" := NormalizedAuthor(p, metadata)];
    ghost var withDate := withAuthor["date" := NormalizedDate(metadata)];
    validated := metadata;
    if "title" !in validated {
      validated := validated["title" := VStr(Untitled)];
    }
    assert validated == withTitle;
    if "tags" in validated {
      var tags := validated["tags"];
      if tags.VStr? {
        validated := validated["tags" := VList(SplitTags(tags.s))];
      } else if !tags.VList? {
        validated := validated["tags" := VList([VStr(ToStr(tags))])];
      }
    } else {
      validated := validated["tags" := VList(StrValues(p.defaultTags))];
    }
    assert validated == withTags;
    if "category" !in validated {
      validated := validated["category" := VStr(p.defaultCategory)];
    }
    assert validated == withCategory;
    if "author" !in validated {
      validated := validated["author" := VStr(p.defaultAuthor)];
    }
    assert validated == withAuthor;
    if "date" !in validated {
      validated := validated["date" := VStr("")];
    }
    if validated["date"].VDate? {
      validated := validated["date" := VStr(Format(validated["date"].date))];
    }
    assert validated == withDate;
    assert ("pinned" in validated <==> "pinned" in metadata)
        && ("pinned" in metadata ==> validated["pinned"] == metadata["pinned"]);
    if "pinned" !in validated {
      validated := validated["pinned" := VBool(false)];
    } else if !validated["pinned"].VBool? {
      validated := validated["pinned" := VBool(Truthy(validated["pinned"]))];
    }
    assert validated == withDate["pinned" := NormalizedPinned(metadata)];
  }

  /** What a front-matter loader hands back: nothing usable, or fields and body. */
  datatype FrontMatter = Unparsable | Loaded(fields: map<string, Value>, body: string)

  /**
   * `parse`: normalises what the loader found; when the header cannot be
   * parsed the file becomes body text with no metadata at all.
   */
  method Parse(p: MetadataParser, content: string, loaded: FrontMatter) returns (metadata: map<string, Value>, body: string)
    ensures loaded.Unparsable? ==> metadata == map[] && body == content
    ensures loaded.Loaded? ==> metadata == Normalized(p, loaded.fields) && body == loaded.body
  {
    match loaded
    case Unparsable =>
      metadata, body := map[], content;
    case Loaded(fields, b) =>
      metadata := ValidateMetadata(p, fields);
      body := b;
  }

  // ---------------------------------------------------------------------
  // Properties of the normalised record.
  // ---------------------------------------------------------------------

  /** All six keys are present with their fixed shapes; every other key passes through. */
  lemma NormalizedShape(p: MetadataParser, m: map<string, Value>)
    ensures var v := Normalized(p, m);
      && v.Keys == m.Keys + NormalizedKeys
      && (forall k :: k in m && k !in NormalizedKeys ==> v[k] == m[k])
      && v["tags"].VList?
      && v["pinned"].VBool?
      && !v["date"].VDate?
  {
  }

  /** Fields that are present and already in shape are left as they are. */
  lemma PresentFieldsKept(p: MetadataParser, m: map<string, Value>)
    ensures var v := Normalized(p, m);
      && ("title" in m ==> v["title"] == m["title"])
      && ("tags" in m && m["tags"].VList? ==> v["tags"] == m["tags"])
      && ("category" in m ==> v["category"] == m["category"])
      && ("author" in m ==> v["author"] == m["author"])
      && ("date" in m && m["date"].VStr? ==> v["date"] == m["date"])
      && ("pinned" in m && m["pinned"].VBool? ==> v["pinned"] == m["pinned"])
  {
  }

  /** Absent fields get the defaults. */
  lemma AbsentFieldsDefaulted(p: MetadataParser, m: map<string, Value>)
    ensures var v := Normalized(p, m);
      && ("title" !in m ==> v["title"] == VStr(Untitled))
      && ("tags" !in m ==> v["tags"] == VList(StrValues(p.defaultTags)))
      && ("category" !in m ==> v["category"] == VStr(p.defaultCategory))
      && ("author" !in m ==> v["author"] == VStr(p.defaultAuthor))
      && ("date" !in m ==> v["date"] == VStr(""))
      && ("pinned" !in m ==> v["pinned"] == VBool(false))
  {
  }

  /**
   * A string of tags becomes its comma-separated pieces, each stripped:
   * nothing but surrounding white space is lost, and no piece holds a comma.
   */
  lemma TagStringSplit(p: MetadataParser, m: map<string, Value>)
    requires "tags" in m && m["tags"].VStr?
    ensures var tags := Normalized(p, m)["tags"].items;
      var pieces := Split(m["tags"].s, ',');
      && Join(pieces, ',') == m["tags"].s
      && |tags| == |pieces|
      && forall i :: 0 <= i < |tags| ==>
           tags[i] == VStr(Strip(pieces[i])) && ',' !in tags[i].s
  {
    var s := m["tags"].s;
    SplitThenJoin(s, ',');
    assert Normalized(p, m)["tags"].items == SplitTags(s);
    SplitTagsPieces(s);
  }

  /** Each tag of a split string is a stripped piece and holds no comma. */
  lemma SplitTagsPieces(s: string)
    ensures var tags := SplitTags(s);
      var pieces := Split(s, ',');
      && |tags| == |pieces|
      && forall i :: 0 <= i < |tags| ==> tags[i] == VStr(Strip(pieces[i])) && ',' !in tags[i].s
  {
    var pieces := Split(s, ',');
    forall i | 0 <= i < |pieces| ensures ',' !in Strip(pieces[i]) {
      TrimAddsNothing(pieces[i], IsSpace, ',');
    }
  }


  /** Any other non-list value becomes the one-element list of its `str`. */
  lemma TagScalarWrapped(p: MetadataParser, m: map<string, Value>)
    requires "tags" in m && !m["tags"].VStr? && !m["tags"].VList?
    ensures Normalized(p, m)["tags"] == VList([VStr(ToStr(m["tags"]))])
  {
  }

  /** A date object is stored as its `YYYY-MM-DD` text, from which it can be read back. */
  lemma DateFormatted(p: MetadataParser, m: map<string, Value>)
    requires "date" in m && m["date"].VDate?
    ensures var d := m["date"].date;
      var text := Normalized(p, m)["date"];
      && text == VStr(Format(d))
      && |text.s| == 10
      && DigitsValue(text.s[..4]) == d.year
      && DigitsValue(text.s[5..7]) == d.month
      && DigitsValue(text.s[8..]) == d.day
  {
    FormatFields(m["date"].date);
  }

  /** Non-bool `pinned` values become their truthiness. */
  lemma PinnedCoerced(p: MetadataParser, m: map<string, Value>)
    requires "pinned" in m
    ensures Normalized(p, m)["pinned"] == VBool(Truthy(m["pinned"]))
  {
  }

  /** Normalising a normalised record changes nothing. */
  lemma NormalizedIdempotent(p: MetadataParser, m: map<string, Value>)
    ensures Normalized(p, Normalized(p, m)) == Normalized(p, m)
  {
    var v := Normalized(p, m);
    var w := Normalized(p, v);
    assert w.Keys == v.Keys;
    forall k | k in w ensures w[k] == v[k] {
    }
  }

  /** The string "false" counts as pinned: `bool("false")` is True. */
  lemma PinnedStringFalseIsTrue(p: MetadataParser)
    ensures Normalized(p, map["pinned" := VStr("false")])["pinned"] == VBool(true)
  {
  }

  /** A string of tags "python, test" becomes ["python", "test"]. */
  lemma TagStringExample(p: MetadataParser)
    ensures Normalized(p, map["tags" := VStr("python, test")])["tags"]
         == VList([VStr("python"), VStr("test")])
  {
    assert "python, test" == "python" + [','] + [' '] + "test";
    assert ',' !in "python" && ',' !in "test";
    SplitTagsOfWords("python", "test");
    var m := map["tags" := VStr("python, test")];
    assert NormalizedTags(p, m) == VList(SplitTags("python, test"));
  }

  /** "a, b" for two words without commas or blanks at their ends gives the tags a and b. */
  lemma SplitTagsOfWords(a: string, b: string)
    requires a != [] && 'a' <= a[0] <= 'z' && 'a' <= a[|a| - 1] <= 'z' && ',' !in a
    requires b != [] && 'a' <= b[0] <= 'z' && 'a' <= b[|b| - 1] <= 'z' && ',' !in b
    ensures SplitTags(a + [','] + [' '] + b) == [VStr(a), VStr(b)]
  {
    var spaced := [' '] + b;
    assert a + [','] + [' '] + b == a + [','] + spaced;
    assert ',' !in spaced;
    SplitTwo(a, spaced, ',');
    SplitTagsTwo(a + [','] + spaced, a, spaced);
    StripSpacedWord(b);
    StripWord(a);
  }

  /** Two comma-separated pieces give two stripped tags. */
  lemma SplitTagsTwo(s: string, a: string, b: string)
    requires Split(s, ',') == [a, b]
    ensures SplitTags(s) == [VStr(Strip(a)), VStr(Strip(b))]
  {
  }

  /** Two pieces joined by the separator split back into those two pieces. */
  lemma SplitTwo(a: string, b: string, sep: char)
    requires sep !in a && sep !in b
    ensures Split(a + [sep] + b, sep) == [a, b]
  {
    SplitAfterPiece(a, b, sep);
    SplitNoSeparator(b, sep);
  }

  /** The blank after a comma goes: " " followed by a word strips to the word. */
  lemma StripSpacedWord(w: string)
    requires w != [] && 'a' <= w[0] <= 'z' && 'a' <= w[|w| - 1] <= 'z'
    ensures Strip([' '] + w) == w
  {
    assert ([' '] + w)[1..] == w;
    TrimDropsFirst([' '] + w, IsSpace);
    StripWord(w);
  }

  /** A word with no white space at either end is its own strip. */
  lemma StripWord(w: string)
    requires w != [] && 'a' <= w[0] <= 'z' && 'a' <= w[|w| - 1] <= 'z'
    ensures Strip(w) == w
  {
    TrimKeeps(w, IsSpace);
  }



}
