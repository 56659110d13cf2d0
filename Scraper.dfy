/**
 * The documentation scraper's naming and framing of a crawled page: the
 * filename-safe slug, the slug taken from the page's URL relative to the
 * crawl's base URL, and the title heading put in front of Markdown that
 * lacks one.
 *
 * The crawl itself (the Firecrawl service) and the file writes are not
 * modelled; a crawled page is a value.
 */
module Scraper {
  import opened Optional
  import opened Text

  /** `text.lower().replace(' ', '-')`. */
  function Hyphenated(text: string): string
  {
    ReplaceAll(Lower(text), [' '], ['-'])
  }

  /** `slugify(text)`: hyphenate, drop everything outside `[a-z0-9-]`, and fall back to "index". */
  function Slugify(text: string): (r: string)
    ensures r != [] && forall i :: 0 <= i < |r| ==> IsSlugChar(r[i])
  {
    var kept := Filter(Hyphenated(text), IsSlugChar);
    if kept == [] then "index" else kept
  }

  /** Spaces become hyphens before anything is dropped, so each space of the text survives as a hyphen. */
  lemma HyphenatedChars(text: string)
    ensures |Hyphenated(text)| == |text|
    ensures forall i :: 0 <= i < |text| ==>
              Hyphenated(text)[i] == (if text[i] == ' ' then '-' else LowerChar(text[i]))
  {
    ReplaceCharAt(Lower(text), ' ', '-');
  }

  /** The slug is "index" exactly when no character survives, or when what survives spells "index". */
  lemma SlugIsIndexIff(text: string)
    ensures Slugify(text) == "index" <==>
              (forall i :: 0 <= i < |Hyphenated(text)| ==> !IsSlugChar(Hyphenated(text)[i]))
              || Filter(Hyphenated(text), IsSlugChar) == "index"
  {
    FilterEmptyIff(Hyphenated(text), IsSlugChar);
  }

  /** Text already made of slug characters is its own slug, unless it is empty. */
  lemma SlugOfSlugChars(s: string)
    requires s != [] && forall i :: 0 <= i < |s| ==> IsSlugChar(s[i])
    ensures Slugify(s) == s
  {
    assert Lower(s) == s;
    assert ' ' !in s by {
      forall i | 0 <= i < |s| ensures s[i] != ' ' { assert IsSlugChar(s[i]); }
    }
    ReplaceAbsentChar(s, ' ', '-');
    FilterKeepsAll(s, IsSlugChar);
  }

  /** Slugifying a slug changes nothing. */
  lemma SlugifyIdempotent(text: string)
    ensures Slugify(Slugify(text)) == Slugify(text)
  {
    SlugOfSlugChars(Slugify(text));
  }

  function IsSlash(c: char): bool
  {
    c == '/'
  }

  /** The last piece of `s.split("/")`, which always exists. */
  function LastSegment(s: string): string
  {
    var parts := Split(s, '/');
    parts[|parts| - 1]
  }

  /**
   * The slug a page is saved under: remove the base URL from the page's
   * URL, trim slashes, and slugify the last '/'-separated part.
   */
  function FileSlug(sourceUrl: string, baseUrl: string): (r: string)
    ensures r != [] && forall i :: 0 <= i < |r| ==> IsSlugChar(r[i])
  {
    Slugify(LastSegment(StripBy(ReplaceAll(sourceUrl, baseUrl, ""), IsSlash)))
  }

  /** The page at the base URL itself is saved as `index.md`, because splitting "" yields [""]. */
  lemma PageAtBaseIsIndex(baseUrl: string)
    requires baseUrl != ""
    ensures FileSlug(baseUrl, baseUrl) == "index"
  {
    assert StartsWith(baseUrl, baseUrl);
    assert ReplaceAll(baseUrl, baseUrl, "") == "";
    assert StripBy("", IsSlash) == "";
    assert Split("", '/') == [""];
  }

  /** A relative path with no slash names its page directly. */
  lemma SingleSegmentSlug(path: string)
    requires '/' !in path
    ensures LastSegment(path) == path
  {
  }

  /** The part after the last slash of `dir/name` is `name`. */
  lemma LastSegmentAfterSlash(dir: string, name: string)
    requires '/' !in name
    ensures LastSegment(dir + "/" + name) == name
  {
    assert dir + "/" + name == dir + ['/'] + name;
    SplitAppend(dir, '/', name);
    assert Split(name, '/') == [name];
  }

  /** `if markdown and not markdown.startswith("# ")`: prefix the title as a level-one heading. */
  function WithTitle(markdown: string, title: string): string
  {
    if markdown != "" && !StartsWith(markdown, "# ") then "# " + title + "\n\n" + markdown else markdown
  }

  /** Non-empty Markdown always opens with a heading afterwards and keeps its text at the end; "" stays "". */
  lemma WithTitleHeads(markdown: string, title: string)
    ensures markdown == "" ==> WithTitle(markdown, title) == ""
    ensures markdown != "" ==> StartsWith(WithTitle(markdown, title), "# ")
    ensures EndsWith(WithTitle(markdown, title), markdown)
    ensures StartsWith(markdown, "# ") ==> WithTitle(markdown, title) == markdown
  {
    var r := WithTitle(markdown, title);
    if markdown != "" && !StartsWith(markdown, "# ") {
      assert r == "# " + (title + "\n\n" + markdown);
      assert r[|r| - |markdown|..] == markdown;
    }
  }

  /** Framing a page twice frames it once. */
  lemma WithTitleIdempotent(markdown: string, title: string, title2: string)
    ensures WithTitle(WithTitle(markdown, title), title2) == WithTitle(markdown, title)
  {
    WithTitleHeads(markdown, title);
  }

  /** The crawler's page metadata, when present. */
  datatype Metadata = Metadata(sourceUrl: string, title: string)

  /** A crawled page: its metadata and its Markdown, either of which may be missing. */
  datatype Page = Page(metadata: Option<Metadata>, markdown: Option<string>)

  /** The file a page is saved to and the text written. */
  datatype Saved = Saved(fileName: string, text: string)

  /** One iteration of the `scrape_docs` loop: missing metadata reads as "" and missing Markdown as "". */
  function SavePage(page: Page, baseUrl: string): (r: Saved)
    ensures EndsWith(r.fileName, ".md")
    ensures page.markdown.None? || page.markdown == Some("") ==> r.text == ""
  {
    var sourceUrl := if page.metadata.Some? then page.metadata.value.sourceUrl else "";
    var title := if page.metadata.Some? then page.metadata.value.title else "";
    var markdown := page.markdown.GetOr("");
    Saved(FileSlug(sourceUrl, baseUrl) + ".md", WithTitle(markdown, title))
  }

  /** The files of a crawl, one per page, in crawl order. */
  function SavePages(pages: seq<Page>, baseUrl: string): (r: seq<Saved>)
    ensures |r| == |pages| && forall k :: 0 <= k < |pages| ==> r[k] == SavePage(pages[k], baseUrl)
  {
    seq(|pages|, k requires 0 <= k < |pages| => SavePage(pages[k], baseUrl))
  }

  /** A page without metadata is saved as `index.md`. */
  lemma NoMetadataIsIndex(page: Page, baseUrl: string)
    requires page.metadata.None?
    ensures SavePage(page, baseUrl).fileName == "index.md"
  {
    assert ReplaceAll("", baseUrl, "") == "" || baseUrl == "";
    if baseUrl == "" {
      assert ReplaceAll("", baseUrl, "") == "";
    }
    assert StripBy("", IsSlash) == "";
    assert Split("", '/') == [""];
  }
}
