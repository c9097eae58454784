/**
 * Heading extraction (`Toc`): the HTML parser callbacks of `TocExtractor`
 * that collect h1-h6 headings into table-of-contents entries, the slug
 * built from a heading's text, the per-document counter that numbers
 * repeated slugs, and the second pass that writes `id="…"` into headings.
 *
 * HTML is modelled as the parser's token stream: each token carries the
 * callback the parser makes for it and the text it was written as.
 */
module Toc {
  import opened Wrappers
  import opened Text
  import opened Seqs

  datatype Attr = Attr(name: string, value: Option<string>)

  /** A parser callback; `Other` stands for comments, declarations and the like, which the extractor ignores. */
  datatype Event =
    | StartTag(tag: string, attrs: seq<Attr>)
    | EndTag(tag: string)
    | Data(text: string)
    | Other

  datatype TocItem = TocItem(level: nat, text: string, id: string)

  // ---------------------------------------------------------------------
  // Heading tags.
  // ---------------------------------------------------------------------

  /** One of "h1" … "h6". */
  predicate IsHeading(tag: string)
  {
    |tag| == 2 && tag[0] == 'h' && '1' <= tag[1] <= '6'
  }

  /** `int(tag[1])`. */
  function Level(tag: string): (n: nat)
    requires IsHeading(tag)
    ensures 1 <= n <= 6
  {
    tag[1] as int - '0' as int
  }

  predicate OpensHeading(e: Event)
  {
    e.StartTag? && IsHeading(e.tag)
  }

  // ---------------------------------------------------------------------
  // Slugs.
  // ---------------------------------------------------------------------

  predicate IsAsciiAlnum(c: char)
  {
    'a' <= c <= 'z' || 'A' <= c <= 'Z' || IsDigit(c)
  }

  /** Punctuation, symbols and format characters outside ASCII that the model treats as non-word characters. */
  predicate IsOtherPunctuation(c: char)
  {
    || ('\U{80}' <= c <= '\U{BF}' && c !in {'\U{AA}', '\U{B2}', '\U{B3}', '\U{B5}', '\U{B9}', '\U{BA}', '\U{BC}', '\U{BD}', '\U{BE}'})
    || c == '\U{D7}' || c == '\U{F7}'
    || '\U{2000}' <= c <= '\U{206F}'
    || '\U{3000}' <= c <= '\U{3004}' || '\U{3008}' <= c <= '\U{3020}'
    || '\U{FF01}' <= c <= '\U{FF0F}' || '\U{FF1A}' <= c <= '\U{FF20}'
    || '\U{FF3B}' <= c <= '\U{FF40}' || '\U{FF5B}' <= c <= '\U{FF65}'
  }

  /**
   * The regex class `\w`: letters, digits and "_". Exact on ASCII; beyond
   * ASCII every character counts except whitespace and the punctuation above.
   */
  predicate IsWordChar(c: char)
  {
    if c <= '\U{7F}' then IsAsciiAlnum(c) || c == '_' else !IsSpace(c) && !IsOtherPunctuation(c)
  }

  /** What `[^\w\s-]` does not match. */
  predicate IsSlugChar(c: char)
  {
    IsWordChar(c) || IsSpace(c) || c == '-'
  }

  /** What `[\s_]` matches. */
  predicate IsSeparator(c: char)
  {
    IsSpace(c) || c == '_'
  }

  predicate IsDash(c: char)
  {
    c == '-'
  }

  /** `re.sub(r'[^\w\s-]', '', s)`. */
  function KeepSlugChars(s: string): string
  {
    if s == [] then []
    else (if IsSlugChar(s[0]) then [s[0]] else []) + KeepSlugChars(s[1..])
  }

  /** `re.sub(r'[\s_]+', '-', s)`: every run of whitespace and "_" becomes one "-". */
  function DashSeparators(s: string): string
    decreases |s|
  {
    if s == [] then []
    else if IsSeparator(s[0]) then
      var rest := TrimStart(s, IsSeparator);
      assert rest != s;
      "-" + DashSeparators(rest)
    else [s[0]] + DashSeparators(s[1..])
  }

  /** `s.lstrip('-')`. */
  function DropLeadingDashes(s: string): string
  {
    if s != [] && s[0] == '-' then DropLeadingDashes(s[1..]) else s
  }

  /** `s.rstrip('-')`. */
  function DropTrailingDashes(s: string): string
  {
    if s != [] && s[|s| - 1] == '-' then DropTrailingDashes(s[..|s| - 1]) else s
  }

  /** `s.strip('-')`. */
  function StripDashes(s: string): string
  {
    DropTrailingDashes(DropLeadingDashes(s))
  }

  /**
   * `_generate_id`'s base: lower-cased, stripped of characters other than
   * word characters, whitespace and "-", runs of whitespace and "_" turned
   * into "-", "-" stripped from both ends, and "heading" if nothing is left.
   */
  function BaseSlug(text: string): string
  {
    var slug := StripDashes(DashSeparators(KeepSlugChars(Lower(text))));
    if slug == "" then "heading" else slug
  }

  /** The characters a base slug is made of: no whitespace, no "_", no ASCII capital. */
  predicate IsSlugBody(c: char)
  {
    (IsWordChar(c) || c == '-') && !IsSeparator(c) && !IsAsciiUpper(c)
  }

  /** A base slug is non-empty, has no whitespace, "_" or ASCII capital, and neither starts nor ends with "-". */
  ghost predicate IsSlug(b: string)
  {
    && b != ""
    && (forall i :: 0 <= i < |b| ==> IsSlugBody(b[i]))
    && b[0] != '-' && b[|b| - 1] != '-'
  }

  lemma StripDashesIsTrim(s: string)
    ensures StripDashes(s) == Trim(s, IsDash)
  {
    DropLeadingIsTrimStart(s);
    DropTrailingIsTrimEnd(DropLeadingDashes(s));
  }

  lemma {:induction false} DropLeadingIsTrimStart(s: string)
    ensures DropLeadingDashes(s) == TrimStart(s, IsDash)
  {
    if s != [] && s[0] == '-' {
      DropLeadingIsTrimStart(s[1..]);
    }
  }

  lemma {:induction false} DropTrailingIsTrimEnd(s: string)
    ensures DropTrailingDashes(s) == TrimEnd(s, IsDash)
  {
    if s != [] && s[|s| - 1] == '-' {
      DropTrailingIsTrimEnd(s[..|s| - 1]);
    }
  }

  /** What `[^\w\s-]` leaves are slug characters, and no capital appears that was not there. */
  lemma {:induction false} KeepSlugCharsNoCapital(s: string)
    requires forall i :: 0 <= i < |s| ==> !IsAsciiUpper(s[i])
    ensures forall i :: 0 <= i < |KeepSlugChars(s)| ==> IsSlugChar(KeepSlugChars(s)[i]) && !IsAsciiUpper(KeepSlugChars(s)[i])
  {
    if s != [] {
      KeepSlugCharsNoCapital(s[1..]);
    }
  }

  lemma {:induction false} DashSeparatorsSlugBody(s: string)
    requires forall i :: 0 <= i < |s| ==> IsSlugChar(s[i]) && !IsAsciiUpper(s[i])
    ensures forall i :: 0 <= i < |DashSeparators(s)| ==> IsSlugBody(DashSeparators(s)[i])
    decreases |s|
  {
    if s != [] {
      if IsSeparator(s[0]) {
        var rest := TrimStart(s, IsSeparator);
        TrimStartSpec(s, IsSeparator);
        SuffixKeeps(s, rest);
        DashSeparatorsSlugBody(rest);
        DashSeparatorsSkip(s);
      } else {
        DashSeparatorsSlugBody(s[1..]);
        DashSeparatorsKeep(s);
      }
    }
  }

  /** A suffix of a string of lower-case slug characters is one too. */
  lemma SuffixKeeps(s: string, rest: string)
    requires forall i :: 0 <= i < |s| ==> IsSlugChar(s[i]) && !IsAsciiUpper(s[i])
    requires |rest| <= |s| && rest == s[|s| - |rest|..]
    ensures forall i :: 0 <= i < |rest| ==> IsSlugChar(rest[i]) && !IsAsciiUpper(rest[i])
  {
    assert forall i :: 0 <= i < |rest| ==> rest[i] == s[|s| - |rest| + i];
  }

  /** A run of separators becomes one "-". */
  lemma DashSeparatorsSkip(s: string)
    requires s != [] && IsSeparator(s[0])
    ensures DashSeparators(s) == "-" + DashSeparators(TrimStart(s, IsSeparator))
  {
  }


  /** Every character left after the first three rewrites can stay in a slug. */
  lemma DashedSlugBody(text: string, dashed: string)
    requires dashed == DashSeparators(KeepSlugChars(Lower(text)))
    ensures forall k :: 0 <= k < |dashed| ==> IsSlugBody(dashed[k])
  {
    var lowered := Lower(text);
    assert forall i :: 0 <= i < |lowered| ==> lowered[i] == LowerChar(text[i]);
    KeepSlugCharsNoCapital(lowered);
    DashSeparatorsSlugBody(KeepSlugChars(lowered));
  }

  lemma HeadingIsSlug()
    ensures IsSlug("heading")
  {
  }

  lemma TrimmedSlug(dashed: string)
    requires forall k :: 0 <= k < |dashed| ==> IsSlugBody(dashed[k])
    requires Trim(dashed, IsDash) != ""
    ensures IsSlug(Trim(dashed, IsDash))
  {
    var slug := Trim(dashed, IsDash);
    var i, j := TrimSpec(dashed, IsDash);
    forall k | 0 <= k < |slug| ensures IsSlugBody(slug[k]) {
      assert slug[k] == dashed[i + k];
    }
    assert !IsDash(slug[0]) && !IsDash(slug[|slug| - 1]);
  }

  lemma BaseSlugShape(text: string)
    ensures IsSlug(BaseSlug(text))
  {
    var dashed := DashSeparators(KeepSlugChars(Lower(text)));
    DashedSlugBody(text, dashed);
    StripDashesIsTrim(dashed);
    if Trim(dashed, IsDash) == "" {
      HeadingIsSlug();
    } else {
      TrimmedSlug(dashed);
    }
  }

  lemma {:induction false} KeepSlugCharsOfSlug(s: string)
    requires forall i :: 0 <= i < |s| ==> IsSlugBody(s[i])
    ensures KeepSlugChars(s) == s
  {
    if s != [] {
      KeepSlugCharsOfSlug(s[1..]);
      assert s == [s[0]] + s[1..];
    }
  }

  lemma {:induction false} DashSeparatorsOfSlug(s: string)
    requires forall i :: 0 <= i < |s| ==> !IsSeparator(s[i])
    ensures DashSeparators(s) == s
  {
    if s != [] {
      DashSeparatorsOfSlug(s[1..]);
      assert s == [s[0]] + s[1..];
    }
  }

  /** Slugging a slug gives it back: the base of an id is a fixed point of the slug rules. */
  lemma BaseSlugIdempotent(text: string)
    ensures BaseSlug(BaseSlug(text)) == BaseSlug(text)
  {
    BaseSlugShape(text);
    SlugFixed(BaseSlug(text));
  }

  /** Every slug is its own base. */
  lemma SlugFixed(b: string)
    requires IsSlug(b)
    ensures BaseSlug(b) == b
  {
    assert Lower(b) == b;
    KeepSlugCharsOfSlug(b);
    DashSeparatorsOfSlug(b);
    StripDashesIsTrim(b);
    assert TrimStart(b, IsDash) == b;
    assert TrimEnd(b, IsDash) == b;
  }

  /** The k-th repeat of a base: the base itself first, then `base-1`, `base-2`, …. */
  function Numbered(base: string, k: nat): string
  {
    if k == 0 then base else base + "-" + NatToString(k)
  }

  lemma NumberedInjective(base: string, j: nat, k: nat)
    requires Numbered(base, j) == Numbered(base, k)
    ensures j == k
  {
    if j != 0 && k != 0 {
      var prefix := base + "-";
      assert Numbered(base, j) == prefix + NatToString(j);
      assert Numbered(base, k) == prefix + NatToString(k);
      assert NatToString(j) == Numbered(base, j)[|prefix|..];
      assert NatToString(k) == Numbered(base, k)[|prefix|..];
      NatToStringInjective(j, k);
    } else {
      assert |Numbered(base, j)| == |Numbered(base, k)|;
    }
  }

  /** `a` holds no whitespace and no "_". */
  predicate NoSeparator(a: string)
  {
    a == [] || (!IsSeparator(a[0]) && NoSeparator(a[1..]))
  }

  lemma {:induction false} SlugNoSeparator(a: string)
    requires forall i :: 0 <= i < |a| ==> IsSlugBody(a[i])
    ensures NoSeparator(a)
  {
    if a != [] {
      assert forall i :: 0 <= i < |a[1..]| ==> a[1..][i] == a[i + 1];
      SlugNoSeparator(a[1..]);
    }
  }

  lemma {:induction false} DashSeparatorsAfterSlug(a: string, rest: string)
    requires NoSeparator(a)
    ensures DashSeparators(a + rest) == a + DashSeparators(rest)
  {
    if a == [] {
      assert a + rest == rest;
    } else {
      var c, tail := a[0], a[1..];
      assert a == [c] + tail;
      DashSeparatorsAfterSlug(tail, rest);
      DashSeparatorsCons(c, tail + rest);
      assert a + rest == [c] + (tail + rest);
    }
  }

  lemma DashSeparatorsCons(c: char, t: string)
    requires !IsSeparator(c)
    ensures DashSeparators([c] + t) == [c] + DashSeparators(t)
  {
    DashSeparatorsKeep([c] + t);
    assert ([c] + t)[1..] == t;
  }

  /** A character that is not a separator is copied as it is. */
  lemma DashSeparatorsKeep(s: string)
    requires s != [] && !IsSeparator(s[0])
    ensures DashSeparators(s) == [s[0]] + DashSeparators(s[1..])
  {
  }


  lemma {:induction false} KeepSlugCharsAll(s: string)
    requires forall i :: 0 <= i < |s| ==> IsSlugChar(s[i])
    ensures KeepSlugChars(s) == s
  {
    if s != [] {
      KeepSlugCharsAll(s[1..]);
      assert s == [s[0]] + s[1..];
    }
  }

  /**
   * Ids are not unique across different bases: the second heading with base
   * `b` is numbered `b-1`, which is also the bare base of a heading written
   * "b 1" (so "Intro", "Intro", "Intro 1" yield `intro`, `intro-1`, `intro-1`).
   */
  lemma LowerOfSlugSuffix(b: string)
    requires IsSlug(b)
    ensures Lower(b + " 1") == b + " 1"
  {
    var t := b + " 1";
    forall i | 0 <= i < |t| ensures Lower(t)[i] == t[i] {
      if i < |b| {
        assert t[i] == b[i] && IsSlugBody(b[i]);
      }
    }
  }

  lemma DashSeparatorsOne()
    ensures DashSeparators("1") == "1"
  {
    assert !IsSeparator('1') && "1"[1..] == [];
  }

  lemma TrimStartSpaceOne()
    ensures TrimStart(" 1", IsSeparator) == "1"
  {
    assert IsSeparator(' ') && !IsSeparator('1') && " 1"[1..] == "1";
  }

  lemma DashSeparatorsSuffix()
    ensures DashSeparators(" 1") == "-1"
  {
    TrimStartSpaceOne();
    DashSeparatorsOne();
  }

  lemma TrimNumbered(b: string)
    requires IsSlug(b)
    ensures StripDashes(b + "-1") == b + "-1"
  {
    StripDashesIsTrim(b + "-1");
    var dashed := b + "-1";
    assert dashed[0] == b[0] && dashed[|dashed| - 1] == '1';
    assert TrimStart(dashed, IsDash) == dashed;
    assert TrimEnd(dashed, IsDash) == dashed;
  }

  /**
   * Numbering does not make ids unique across bases: the first repeat of
   * any heading's base is also the base of a heading that reads as that base
   * followed by " 1", so such a document carries the same id twice.
   */
  lemma CrossBaseCollision(text: string)
    ensures Numbered(BaseSlug(text), 1) == BaseSlug(BaseSlug(text) + " 1")
  {
    BaseSlugShape(text);
    SlugSuffixCollision(BaseSlug(text));
  }

  /** A slug followed by " 1" slugs to the slug's first repeat. */
  lemma SlugSuffixCollision(b: string)
    requires IsSlug(b)
    ensures Numbered(b, 1) == BaseSlug(b + " 1")
  {
    var t := b + " 1";
    LowerOfSlugSuffix(b);
    SlugSuffixChars(b);
    KeepSlugCharsAll(t);
    DashedSlugSuffix(b);
    TrimNumbered(b);
    assert StripDashes(DashSeparators(KeepSlugChars(Lower(t)))) == b + "-1";
  }

  lemma SlugSuffixChars(b: string)
    requires IsSlug(b)
    ensures forall i :: 0 <= i < |b + " 1"| ==> IsSlugChar((b + " 1")[i])
  {
    var t := b + " 1";
    forall i | 0 <= i < |t| ensures IsSlugChar(t[i]) {
      if i < |b| {
        assert t[i] == b[i] && IsSlugBody(b[i]);
      }
    }
  }

  lemma DashedSlugSuffix(b: string)
    requires IsSlug(b)
    ensures DashSeparators(b + " 1") == b + "-1"
  {
    SlugNoSeparator(b);
    DashSeparatorsAfterSlug(b, " 1");
    DashSeparatorsSuffix();
  }

  // ---------------------------------------------------------------------
  // Id generation.
  // ---------------------------------------------------------------------

  /**
   * `_generate_id`: the id for a heading text and the updated counter table.
   * A base met for the first time is returned bare and counted 0; a repeat
   * raises its count and gets the count as a suffix.
   */
  function NextId(counter: map<string, nat>, text: string): (string, map<string, nat>)
  {
    NextIdOfBase(counter, BaseSlug(text))
  }

  // ---------------------------------------------------------------------
  // The extractor as a state machine over parser callbacks.
  // ---------------------------------------------------------------------

  /** The extractor's fields: `toc_items`, `current_tag`, `current_text` and `heading_counter`. */
  datatype Extractor = Extractor(items: seq<TocItem>, open: Option<string>, text: seq<string>, counter: map<string, nat>)

  /** A freshly constructed extractor. */
  const Initial: Extractor := Extractor([], None, [], map[])

  /** `handle_starttag`: an h1-h6 tag opens a heading and drops any text collected so far. */
  function StartStep(s: Extractor, tag: string): Extractor
  {
    if IsHeading(tag) then s.(open := Some(tag), text := []) else s
  }

  /** `handle_data`: text is collected only while a heading is open. */
  function DataStep(s: Extractor, data: string): Extractor
  {
    if s.open.Some? then s.(text := s.text + [data]) else s
  }

  /**
   * `handle_endtag`: the end tag of the open heading closes it; an entry is
   * added only when the joined and stripped text is not empty.
   */
  function EndStep(s: Extractor, tag: string): Extractor
  {
    if IsHeading(tag) && s.open == Some(tag) then
      var text := Strip(Concat(s.text));
      var added :=
        if text != "" then
          var (id, counter) := NextId(s.counter, text);
          s.(items := s.items + [TocItem(Level(tag), text, id)], counter := counter)
        else s;
      added.(open := None, text := [])
    else s
  }

  function Step(s: Extractor, e: Event): Extractor
  {
    match e
    case StartTag(tag, _) => StartStep(s, tag)
    case EndTag(tag) => EndStep(s, tag)
    case Data(data) => DataStep(s, data)
    case Other => s
  }

  /** The state after the parser has made the callbacks `events`, in order. */
  function Run(s: Extractor, events: seq<Event>): Extractor
  {
    if events == [] then s else Step(Run(s, events[..|events| - 1]), events[|events| - 1])
  }

  /** The entries a fresh extractor collects from a document. */
  function Toc(events: seq<Event>): seq<TocItem>
  {
    Run(Initial, events).items
  }

  class TocExtractor {
    var tocItems: seq<TocItem>
    var currentTag: Option<string>
    var currentText: seq<string>
    var headingCounter: map<string, nat>

    function State(): Extractor
      reads this
    {
      Extractor(tocItems, currentTag, currentText, headingCounter)
    }

    constructor()
      ensures State() == Initial
    {
      tocItems := [];
      currentTag := None;
      currentText := [];
      headingCounter := map[];
    }

    method HandleStartTag(tag: string, attrs: seq<Attr>)
      modifies this
      ensures State() == StartStep(old(State()), tag)
    {
      if IsHeading(tag) {
        currentTag := Some(tag);
        currentText := [];
      }
    }

    method HandleData(data: string)
      modifies this
      ensures State() == DataStep(old(State()), data)
    {
      if currentTag.Some? {
        currentText := currentText + [data];
      }
    }

    method GenerateId(text: string) returns (id: string)
      modifies this
      ensures (id, headingCounter) == NextId(old(headingCounter), text)
      ensures tocItems == old(tocItems) && currentTag == old(currentTag) && currentText == old(currentText)
    {
      var base := BaseSlug(text);
      if base !in headingCounter {
        headingCounter := headingCounter[base := 0];
        id := base;
      } else {
        headingCounter := headingCounter[base := headingCounter[base] + 1];
        id := base + "-" + NatToString(headingCounter[base]);
      }
    }

    method HandleEndTag(tag: string)
      modifies this
      ensures State() == EndStep(old(State()), tag)
    {
      ghost var before := State();
      if IsHeading(tag) && currentTag == Some(tag) {
        var text := Strip(Concat(currentText));
        if text != "" {
          var id := GenerateId(text);
          tocItems := tocItems + [TocItem(Level(tag), text, id)];
          assert (id, headingCounter) == NextId(before.counter, text);
        }
        currentTag := None;
        currentText := [];
      }
    }

    /** The parser's `feed`: one callback per event, in document order. */
    method Feed(events: seq<Event>)
      modifies this
      ensures State() == Run(old(State()), events)
    {
      for i := 0 to |events|
        invariant State() == Run(old(State()), events[..i])
      {
        match events[i] {
          case StartTag(tag, attrs) => HandleStartTag(tag, attrs);
          case EndTag(tag) => HandleEndTag(tag);
          case Data(data) => HandleData(data);
          case Other =>
        }
        assert events[..i + 1][..i] == events[..i];
      }
      assert events[..|events|] == events;
    }
  }

  /** `extract_toc`: a fresh extractor fed the whole document; its entries in document order. */
  method ExtractToc(events: seq<Event>) returns (toc: seq<TocItem>)
    ensures toc == Toc(events)
  {
    var extractor := new TocExtractor();
    extractor.Feed(events);
    toc := extractor.tocItems;
  }

  // ---------------------------------------------------------------------
  // What the extractor promises.
  // ---------------------------------------------------------------------

  lemma {:induction false} RunAppend(s: Extractor, a: seq<Event>, b: seq<Event>)
    ensures Run(s, a + b) == Run(Run(s, a), b)
  {
    if b == [] {
      assert a + b == a;
    } else {
      assert (a + b)[..|a + b| - 1] == a + b[..|b| - 1];
      RunAppend(s, a, b[..|b| - 1]);
    }
  }

  /** Entries are only ever appended, so they come out in document order. */
  lemma {:induction false} RunKeepsEntries(s: Extractor, events: seq<Event>)
    ensures |s.items| <= |Run(s, events).items|
    ensures Run(s, events).items[..|s.items|] == s.items
  {
    if events != [] {
      RunKeepsEntries(s, events[..|events| - 1]);
    }
  }

  /** The entries of a document's beginning are the first entries of the whole document. */
  lemma TocOfPrefix(a: seq<Event>, b: seq<Event>)
    ensures |Toc(a)| <= |Toc(a + b)| && Toc(a + b)[..|Toc(a)|] == Toc(a)
  {
    RunAppend(Initial, a, b);
    RunKeepsEntries(Run(Initial, a), b);
  }

  /** The text callbacks among `events`, in order. */
  function DataOf(events: seq<Event>): seq<string>
  {
    if events == [] then []
    else DataOf(events[..|events| - 1]) + (if events[|events| - 1].Data? then [events[|events| - 1].text] else [])
  }

  /** No heading opens among `events` and `tag` is not closed. */
  predicate Inside(events: seq<Event>, tag: string)
  {
    forall i :: 0 <= i < |events| ==> !OpensHeading(events[i]) && events[i] != EndTag(tag)
  }

  /** While heading `tag` is open, every text callback is collected, whatever inline tags surround it. */
  lemma {:induction false} RunInside(s: Extractor, tag: string, middle: seq<Event>)
    requires s.open == Some(tag)
    requires Inside(middle, tag)
    ensures Run(s, middle) == s.(text := s.text + DataOf(middle))
  {
    if middle == [] {
      assert s.text + [] == s.text;
    } else {
      var init := middle[..|middle| - 1];
      assert Inside(init, tag);
      RunInside(s, tag, init);
      var e := middle[|middle| - 1];
      assert !OpensHeading(e) && e != EndTag(tag);
      if e.Data? {
        assert s.text + DataOf(init) + [e.text] == s.text + (DataOf(init) + [e.text]);
      } else {
        assert DataOf(middle) == DataOf(init) + [];
      }
    }
  }

  lemma RunOne(s: Extractor, e: Event)
    ensures Run(s, [e]) == Step(s, e)
  {
    assert [e][..0] == [];
  }

  /**
   * A heading from its start tag to its end tag: the entry's text is the
   * stripped concatenation of all the text inside, its level the tag's digit,
   * and its id the next one for that text. An empty heading adds no entry and
   * leaves the counter table as it was. Either way the heading is closed.
   */
  lemma HeadingSpan(s: Extractor, tag: string, attrs: seq<Attr>, middle: seq<Event>)
    requires IsHeading(tag)
    requires Inside(middle, tag)
    ensures var r := Run(s, [StartTag(tag, attrs)] + middle + [EndTag(tag)]);
      var text := Strip(Concat(DataOf(middle)));
      && r.open == None && r.text == []
      && (text == "" ==> r.items == s.items && r.counter == s.counter)
      && (text != "" ==>
            && r.items == s.items + [TocItem(Level(tag), text, NextId(s.counter, text).0)]
            && r.counter == NextId(s.counter, text).1)
  {
    var started := s.(open := Some(tag), text := []);
    RunOne(s, StartTag(tag, attrs));
    RunAppend(s, [StartTag(tag, attrs)], middle);
    RunInside(started, tag, middle);
    assert [] + DataOf(middle) == DataOf(middle);
    RunAppend(s, [StartTag(tag, attrs)] + middle, [EndTag(tag)]);
    RunOne(Run(s, [StartTag(tag, attrs)] + middle), EndTag(tag));
  }

  /** A heading that is opened and never closed adds no entry and does not touch the counter table. */
  lemma UnclosedHeading(s: Extractor, tag: string, attrs: seq<Attr>, rest: seq<Event>)
    requires IsHeading(tag)
    requires Inside(rest, tag)
    ensures var r := Run(s, [StartTag(tag, attrs)] + rest);
      r.items == s.items && r.counter == s.counter && r.open == Some(tag)
  {
    RunOne(s, StartTag(tag, attrs));
    RunAppend(s, [StartTag(tag, attrs)], rest);
    RunInside(s.(open := Some(tag), text := []), tag, rest);
  }

  /**
   * Opening a heading while another is open discards the first one's text:
   * the document then reads as if the first heading had never been opened.
   */
  lemma ReopenDiscards(s: Extractor, t1: string, a1: seq<Attr>, m1: seq<Event>, t2: string, a2: seq<Attr>, rest: seq<Event>)
    requires IsHeading(t1) && IsHeading(t2)
    requires Inside(m1, t1)
    ensures Run(s, [StartTag(t1, a1)] + m1 + [StartTag(t2, a2)] + rest) == Run(s, [StartTag(t2, a2)] + rest)
  {
    var first := [StartTag(t1, a1)] + m1;
    RunOne(s, StartTag(t1, a1));
    RunAppend(s, [StartTag(t1, a1)], m1);
    RunInside(s.(open := Some(t1), text := []), t1, m1);
    RunAppend(s, first, [StartTag(t2, a2)]);
    RunOne(Run(s, first), StartTag(t2, a2));
    RunOne(s, StartTag(t2, a2));
    assert Run(s, first + [StartTag(t2, a2)]) == Run(s, [StartTag(t2, a2)]);
    RunAppend(s, first + [StartTag(t2, a2)], rest);
    RunAppend(s, [StartTag(t2, a2)], rest);
  }

  // ---------------------------------------------------------------------
  // Numbering of repeated bases.
  // ---------------------------------------------------------------------

  /** How many of `items` have a text whose base, as `slug` computes it, is `base`. */
  function CountBase(items: seq<TocItem>, slug: string -> string, base: string): nat
  {
    if items == [] then 0
    else CountBase(items[..|items| - 1], slug, base) + (if slug(items[|items| - 1].text) == base then 1 else 0)
  }

  /**
   * Each entry's id is its base numbered by how many earlier entries share
   * the base, and the counter table holds, for each base met, one less than
   * the number of entries with that base. The slug function is a parameter
   * so that the argument does not depend on how bases are computed.
   */
  ghost predicate Numbering(s: Extractor, slug: string -> string)
  {
    && (forall p :: 0 <= p < |s.items| ==>
          s.items[p].id == Numbered(slug(s.items[p].text), CountBase(s.items[..p], slug, slug(s.items[p].text))))
    && (forall b :: b in s.counter <==> CountBase(s.items, slug, b) > 0)
    && (forall b :: b in s.counter ==> s.counter[b] + 1 == CountBase(s.items, slug, b))
  }

  lemma CountBaseSnoc(items: seq<TocItem>, item: TocItem, slug: string -> string, base: string)
    ensures CountBase(items + [item], slug, base) == CountBase(items, slug, base) + (if slug(item.text) == base then 1 else 0)
  {
    assert (items + [item])[..|items|] == items;
  }

  /** `_generate_id` with the base already computed. */
  function NextIdOfBase(counter: map<string, nat>, base: string): (string, map<string, nat>)
  {
    if base !in counter then (base, counter[base := 0])
    else (base + "-" + NatToString(counter[base] + 1), counter[base := counter[base] + 1])
  }

  /** Adding the entry `_generate_id` numbers keeps the numbering. */
  lemma AddEntryNumbering(s: Extractor, slug: string -> string, level: nat, text: string)
    requires Numbering(s, slug)
    ensures var (id, counter) := NextIdOfBase(s.counter, slug(text));
      Numbering(s.(items := s.items + [TocItem(level, text, id)], counter := counter), slug)
  {
    var (id, counter) := NextIdOfBase(s.counter, slug(text));
    AddEntryCounter(s, slug, TocItem(level, text, id), counter);
    AddEntryIds(s, slug, TocItem(level, text, id));
  }

  /** The counter `_generate_id` returns counts the new entry's base once more. */
  lemma AddEntryCounter(s: Extractor, slug: string -> string, item: TocItem, counter: map<string, nat>)
    requires Numbering(s, slug)
    requires (item.id, counter) == NextIdOfBase(s.counter, slug(item.text))
    ensures forall b :: b in counter <==> CountBase(s.items + [item], slug, b) > 0
    ensures forall b :: b in counter ==> counter[b] + 1 == CountBase(s.items + [item], slug, b)
  {
    forall b ensures CountBase(s.items + [item], slug, b) == CountBase(s.items, slug, b) + (if b == slug(item.text) then 1 else 0) {
      CountBaseSnoc(s.items, item, slug, b);
    }
  }

  /** The new entry's id is its base numbered by the earlier entries with that base; the old ids keep theirs. */
  lemma AddEntryIds(s: Extractor, slug: string -> string, item: TocItem)
    requires Numbering(s, slug)
    requires item.id == NextIdOfBase(s.counter, slug(item.text)).0
    ensures var items := s.items + [item];
      forall p :: 0 <= p < |items| ==>
        items[p].id == Numbered(slug(items[p].text), CountBase(items[..p], slug, slug(items[p].text)))
  {
    var items := s.items + [item];
    forall p | 0 <= p < |items|
      ensures items[p].id == Numbered(slug(items[p].text), CountBase(items[..p], slug, slug(items[p].text)))
    {
      if p < |s.items| {
        assert items[..p] == s.items[..p];
      } else {
        assert items[..p] == s.items;
      }
    }
  }

  lemma StepNumbering(s: Extractor, e: Event)
    requires Numbering(s, BaseSlug)
    ensures Numbering(Step(s, e), BaseSlug)
  {
    if e.EndTag? && IsHeading(e.tag) && s.open == Some(e.tag) {
      var text := Strip(Concat(s.text));
      if text != "" {
        assert NextId(s.counter, text) == NextIdOfBase(s.counter, BaseSlug(text));
        AddEntryNumbering(s, BaseSlug, Level(e.tag), text);
      }
    }
  }

  lemma {:induction false} RunNumbering(s: Extractor, events: seq<Event>)
    requires Numbering(s, BaseSlug)
    ensures Numbering(Run(s, events), BaseSlug)
  {
    if events != [] {
      RunNumbering(s, events[..|events| - 1]);
      StepNumbering(Run(s, events[..|events| - 1]), events[|events| - 1]);
    }
  }

  /**
   * Within one document, the first heading with a given base gets the bare
   * base and each later one `base-k`, k counting the earlier headings with
   * that base. The counter starts empty for every document.
   */
  lemma TocIdsNumbered(events: seq<Event>)
    ensures var toc := Toc(events);
      forall p :: 0 <= p < |toc| ==>
        toc[p].id == Numbered(BaseSlug(toc[p].text), CountBase(toc[..p], BaseSlug, BaseSlug(toc[p].text)))
  {
    RunNumbering(Initial, events);
  }

  lemma {:induction false} CountBaseGrows(items: seq<TocItem>, slug: string -> string, p: nat, q: nat)
    requires p < q <= |items|
    ensures CountBase(items[..q], slug, slug(items[p].text)) > CountBase(items[..p], slug, slug(items[p].text))
  {
    assert items[..q][..q - 1] == items[..q - 1];
    if q == p + 1 {
      assert items[..q][q - 1] == items[p];
    } else {
      CountBaseGrows(items, slug, p, q - 1);
    }
  }

  /** Headings with equal bases in one document get pairwise different ids. */
  lemma EqualBasesDistinctIds(events: seq<Event>, p: nat, q: nat)
    requires p < q < |Toc(events)|
    requires BaseSlug(Toc(events)[p].text) == BaseSlug(Toc(events)[q].text)
    ensures Toc(events)[p].id != Toc(events)[q].id
  {
    var toc := Toc(events);
    var b := BaseSlug(toc[p].text);
    TocIdsNumbered(events);
    CountBaseGrows(toc, BaseSlug, p, q);
    if toc[p].id == toc[q].id {
      NumberedInjective(b, CountBase(toc[..p], BaseSlug, b), CountBase(toc[..q], BaseSlug, b));
    }
  }

  // ---------------------------------------------------------------------
  // Shape of the entries.
  // ---------------------------------------------------------------------

  /** Every entry has a level from 1 to 6 and a non-empty text with nothing left to strip. */
  ghost predicate EntriesWellFormed(items: seq<TocItem>)
  {
    forall p :: 0 <= p < |items| ==>
      1 <= items[p].level <= 6 && items[p].text != "" && Strip(items[p].text) == items[p].text
  }

  lemma AddEntryWellFormed(items: seq<TocItem>, item: TocItem)
    requires EntriesWellFormed(items)
    requires 1 <= item.level <= 6 && item.text != "" && Strip(item.text) == item.text
    ensures EntriesWellFormed(items + [item])
  {
    var all := items + [item];
    forall p | 0 <= p < |all| ensures 1 <= all[p].level <= 6 && all[p].text != "" && Strip(all[p].text) == all[p].text {
      if p < |items| {
        assert all[p] == items[p];
      }
    }
  }

  lemma StepWellFormed(s: Extractor, e: Event)
    requires EntriesWellFormed(s.items)
    ensures EntriesWellFormed(Step(s, e).items)
  {
    if e.EndTag? && IsHeading(e.tag) && s.open == Some(e.tag) {
      var text := Strip(Concat(s.text));
      if text != "" {
        TrimIdempotent(Concat(s.text), IsSpace);
        AddEntryWellFormed(s.items, TocItem(Level(e.tag), text, NextId(s.counter, text).0));
      }
    }
  }

  lemma {:induction false} RunWellFormed(s: Extractor, events: seq<Event>)
    requires EntriesWellFormed(s.items)
    ensures EntriesWellFormed(Run(s, events).items)
  {
    if events != [] {
      RunWellFormed(s, events[..|events| - 1]);
      StepWellFormed(Run(s, events[..|events| - 1]), events[|events| - 1]);
    }
  }

  lemma TocWellFormed(events: seq<Event>)
    ensures EntriesWellFormed(Toc(events))
  {
    RunWellFormed(Initial, events);
  }

  // ---------------------------------------------------------------------
  // Writing the ids into the headings.
  // ---------------------------------------------------------------------

  /** A piece of the document: the callback the parser makes for it and the text it is written as. */
  datatype Token = Token(event: Event, raw: string)

  function Events(html: seq<Token>): seq<Event>
  {
    seq(|html|, i requires 0 <= i < |html| => html[i].event)
  }

  /** `<hN>`, a heading start tag written without attributes. */
  function OpenRaw(level: nat): string
  {
    "<h" + NatToString(level) + ">"
  }

  function CloseRaw(level: nat): string
  {
    "</h" + NatToString(level) + ">"
  }

  /** `<hN id="ID">`: what the substitution writes in place of `<hN>`. */
  function TaggedRaw(item: TocItem): string
  {
    "<h" + NatToString(item.level) + " id=\"" + item.id + "\">"
  }

  function Tagged(item: TocItem): Token
  {
    Token(StartTag("h" + NatToString(item.level), [Attr("id", Some(item.id))]), TaggedRaw(item))
  }

  /** A start tag that carries an id is never written `<hN>`. */
  lemma TaggedIsNotOpen(item: TocItem, level: nat)
    ensures TaggedRaw(item) != OpenRaw(level)
  {
    var digits := NatToString(item.level);
    var tagged := TaggedRaw(item);
    var open := OpenRaw(level);
    assert tagged[2 + |digits|] == ' ';
    assert forall k :: 0 <= k < |open| ==> open[k] != ' ' by {
      forall k | 0 <= k < |open| ensures open[k] != ' ' {
        if 2 <= k < |open| - 1 {
          assert open[k] == NatToString(level)[k - 2];
        }
      }
    }
  }

  /** The text written from the start of `html` up to the first token written `close`; None if there is none. */
  function RawUntil(html: seq<Token>, close: string): Option<string>
  {
    if html == [] then None
    else if html[0].raw == close then Some("")
    else
      match RawUntil(html[1..], close)
      case None => None
      case Some(rest) => Some(html[0].raw + rest)
  }

  /** `.*?TEXT.*?` matches all of `content`: `text` occurs in it with no line break before or after it (`.` does not match a newline). */
  predicate OccursOnLine(content: string, text: string)
  {
    exists p :: 0 <= p <= |content| - |text| && content[p..p + |text|] == text
      && '\n' !in content[..p] && '\n' !in content[p + |text|..]
  }

  /**
   * The pattern `(<hN)(>.*?TEXT.*?</hN>)` matches at token `i`, within that
   * one heading: the token is written `<hN>` exactly, and the text written
   * up to the next `</hN>` contains the entry's text on one line.
   */
  predicate HeadingMatches(html: seq<Token>, i: nat, item: TocItem)
    requires i < |html|
  {
    && html[i].raw == OpenRaw(item.level)
    && var content := RawUntil(html[i + 1..], CloseRaw(item.level));
       content.Some? && OccursOnLine(content.value, item.text)
  }

  /** The leftmost token at or after `from` where the entry's pattern matches. */
  function FirstMatch(html: seq<Token>, item: TocItem, from: nat): (r: Option<nat>)
    requires from <= |html|
    ensures r.Some? ==>
      && from <= r.value < |html| && HeadingMatches(html, r.value, item)
      && forall j :: from <= j < r.value ==> !HeadingMatches(html, j, item)
    ensures r.None? ==> forall j :: from <= j < |html| ==> !HeadingMatches(html, j, item)
    decreases |html| - from
  {
    if from == |html| then None
    else if HeadingMatches(html, from, item) then Some(from)
    else FirstMatch(html, item, from + 1)
  }

  /**
   * `re.sub(pattern, replacement, html, count=1)` for one entry: exactly the
   * leftmost matching heading changes, and it becomes `<hN id="ID">`.
   */
  function SubstituteFirst(html: seq<Token>, item: TocItem): (r: seq<Token>)
    ensures |r| == |html|
    ensures forall i :: 0 <= i < |html| ==>
      (r[i] != html[i] <==> HeadingMatches(html, i, item) && forall j :: 0 <= j < i ==> !HeadingMatches(html, j, item))
    ensures forall i :: 0 <= i < |html| && r[i] != html[i] ==> r[i] == Tagged(item)
  {
    match FirstMatch(html, item, 0)
    case None => html
    case Some(i) =>
      TaggedIsNotOpen(item, item.level);
      html[i := Tagged(item)]
  }

  /** The document after the substitutions for `items`, in order. */
  function ApplyIds(html: seq<Token>, items: seq<TocItem>): (r: seq<Token>)
    ensures |r| == |html|
  {
    if items == [] then html else SubstituteFirst(ApplyIds(html, items[..|items| - 1]), items[|items| - 1])
  }

  lemma ApplyIdsSnoc(html: seq<Token>, items: seq<TocItem>, k: nat)
    requires k < |items|
    ensures ApplyIds(html, items[..k + 1]) == SubstituteFirst(ApplyIds(html, items[..k]), items[k])
  {
    assert items[..k + 1][..k] == items[..k];
  }

  /**
   * `add_heading_ids`: a fresh extractor collects the document's entries,
   * then each entry's substitution is applied to the result of the previous one.
   */
  method AddHeadingIds(html: seq<Token>) returns (result: seq<Token>)
    ensures result == ApplyIds(html, Toc(Events(html)))
  {
    var extractor := new TocExtractor();
    extractor.Feed(Events(html));
    var items := extractor.tocItems;
    result := html;
    for k := 0 to |items|
      invariant result == ApplyIds(html, items[..k])
    {
      result := SubstituteFirst(result, items[k]);
      ApplyIdsSnoc(html, items, k);
    }
    assert items[..|items|] == items;
  }

  /**
   * At most one token changes per entry; every changed token was written
   * `<hN>` and now carries the id of an entry of level N. A token that
   * already carries an id is never matched again.
   */
  lemma {:induction false} ApplyIdsChanges(html: seq<Token>, items: seq<TocItem>)
    ensures var r := ApplyIds(html, items);
      && Differences(html, r) <= |items|
      && forall i :: 0 <= i < |html| && r[i] != html[i] ==>
           exists k :: 0 <= k < |items| && html[i].raw == OpenRaw(items[k].level) && r[i] == Tagged(items[k])
  {
    var r := ApplyIds(html, items);
    if items == [] {
      DifferencesSame(html);
    } else {
      var init := items[..|items| - 1];
      var item := items[|items| - 1];
      var before := ApplyIds(html, init);
      ApplyIdsChanges(html, init);
      DifferencesTriangle(html, before, r);
      SubstituteAtMostOne(before, item);
      forall i | 0 <= i < |html| && r[i] != html[i]
        ensures exists k :: 0 <= k < |items| && html[i].raw == OpenRaw(items[k].level) && r[i] == Tagged(items[k])
      {
        if before[i] != html[i] {
          var k :| 0 <= k < |init| && html[i].raw == OpenRaw(init[k].level) && before[i] == Tagged(init[k]);
          TaggedIsNotOpen(init[k], item.level);
          assert r[i] == before[i];
          assert items[k] == init[k];
        } else {
          assert items[|items| - 1] == item;
        }
      }
    }
  }

  lemma SubstituteAtMostOne(html: seq<Token>, item: TocItem)
    ensures Differences(html, SubstituteFirst(html, item)) <= 1
  {
    match FirstMatch(html, item, 0)
    case None => DifferencesSame(html);
    case Some(i) => DifferencesAtMostOne(html, i, Tagged(item));
  }

  /** With no entries the document comes back unchanged; otherwise the ids written are the ones `extract_toc` reports for it. */
  lemma AddedIdsAreTocIds(html: seq<Token>)
    ensures var toc := Toc(Events(html));
      var r := ApplyIds(html, toc);
      && (toc == [] ==> r == html)
      && Differences(html, r) <= |toc|
      && forall i :: 0 <= i < |html| && r[i] != html[i] ==> exists k :: 0 <= k < |toc| && r[i] == Tagged(toc[k])
  {
    ApplyIdsChanges(html, Toc(Events(html)));
  }
}
