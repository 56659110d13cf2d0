/**
 * The vault tools: reading and appending Markdown files, searching the
 * meeting notes for a query, and listing the most recent meetings.
 *
 * The vault is a map from relative path to file content. The meetings
 * directory is described by whether it exists and by its Markdown files in
 * the order the directory listing yields them.
 */
module Vault {
  import opened Text
  import Sorting
  import Hooks

  // ---------------------------------------------------------------------
  // Reading and writing
  // ---------------------------------------------------------------------

  /** What `append_file` writes: the existing text, a newline, then the new content. */
  function Appended(existing: string, content: string): string
  {
    existing + "\n" + content
  }

  /** The vault's files, relative path to content. */
  class Store {
    var files: map<string, string>

    constructor (files0: map<string, string>)
      ensures files == files0
    {
      files := files0;
    }

    /** `read_file`: a missing file reads as "". */
    function ReadFile(path: string): (r: string)
      reads this
      ensures path !in files ==> r == ""
      ensures path in files ==> r == files[path]
    {
      if path in files then files[path] else ""
    }

    /** `write_file`: the file now holds exactly `content`. */
    method WriteFile(path: string, content: string)
      modifies this
      ensures files == old(files)[path := content]
      ensures ReadFile(path) == content
    {
      files := files[path := content];
    }

    /** `append_file`: a missing file counts as empty, so appending to it starts with a newline. */
    method AppendFile(path: string, content: string)
      modifies this
      ensures files == old(files)[path := Appended(old(ReadFile(path)), content)]
      ensures forall p :: p != path ==> ReadFile(p) == old(ReadFile(p))
    {
      var existing := ReadFile(path);
      files := files[path := Appended(existing, content)];
    }
  }

  /** An append keeps the old lines and adds the content's lines after them. */
  lemma AppendAddsLines(existing: string, content: string)
    ensures Split(Appended(existing, content), '\n') == Split(existing, '\n') + Split(content, '\n')
    ensures StartsWith(Appended(existing, content), existing) && EndsWith(Appended(existing, content), content)
  {
    SplitAppend(existing, '\n', content);
    var r := Appended(existing, content);
    assert r[..|existing|] == existing;
    assert r[|r| - |content|..] == content;
  }

  /** Appending to a missing file leaves an empty first line. */
  lemma AppendToMissingLeadsWithBlankLine(content: string)
    ensures Split(Appended("", content), '\n') == [""] + Split(content, '\n')
  {
    AppendAddsLines("", content);
  }

  // ---------------------------------------------------------------------
  // Searching meetings
  // ---------------------------------------------------------------------

  datatype MeetingFile = MeetingFile(name: string, content: string)

  /** One search result: the meeting's title, its file name and up to two snippets. */
  datatype Found = Found(title: string, file: string, snippets: seq<string>)

  const NoMeetings: string := "(no meetings found)"

  function NoMatch(query: string): string
  {
    "(no meetings found matching '" + query + "')"
  }

  /** `content.split("\n")`. */
  function Lines(content: string): (r: seq<string>)
    ensures |r| >= 1
  {
    Split(content, '\n')
  }

  /** The first line with every "# " removed. */
  function TitleOf(content: string): string
  {
    ReplaceAll(Lines(content)[0], "# ", "")
  }

  /** `query_lower in text.lower()`, where `q` is the lower-cased query. */
  predicate Mentions(text: string, q: string)
  {
    Contains(Lower(text), q)
  }

  /** `max(0, i - 1)`. */
  function WindowStart(i: nat): nat
  {
    if i >= 1 then i - 1 else 0
  }

  /** `lines[max(0, i-1):min(n, i+2)]`: the line with its neighbours, a run of one to three lines holding line `i`. */
  function WindowLines(lines: seq<string>, i: nat): (r: seq<string>)
    requires i < |lines|
    ensures 1 <= |r| <= 3 && lines[i] in r
    ensures WindowStart(i) + |r| <= |lines| && r == lines[WindowStart(i)..WindowStart(i) + |r|]
    ensures WindowStart(i) <= i < WindowStart(i) + |r|
  {
    var end := if i + 2 <= |lines| then i + 2 else |lines|;
    var r := lines[WindowStart(i)..end];
    assert r[i - WindowStart(i)] == lines[i];
    r
  }

  /** A snippet: the window's lines joined by newlines. */
  function Window(lines: seq<string>, i: nat): string
    requires i < |lines|
  {
    Join(WindowLines(lines, i), "\n")
  }

  /** The windows of every line from `i` on that mentions the query, in line order. */
  function WindowsFrom(lines: seq<string>, q: string, i: nat): (r: seq<string>)
    requires i <= |lines|
    decreases |lines| - i
  {
    if i == |lines| then []
    else (if Mentions(lines[i], q) then [Window(lines, i)] else []) + WindowsFrom(lines, q, i + 1)
  }

  /** What the inner loop collects from line `i` on with `room` snippets still allowed. */
  function SnippetsFrom(lines: seq<string>, q: string, i: nat, room: nat): (r: seq<string>)
    requires i <= |lines|
    ensures |r| <= room
    decreases |lines| - i
  {
    if i == |lines| || room == 0 then []
    else if Mentions(lines[i], q) then [Window(lines, i)] + SnippetsFrom(lines, q, i + 1, room - 1)
    else SnippetsFrom(lines, q, i + 1, room)
  }

  /** A matched file's snippets: at most two. */
  function Snippets(lines: seq<string>, q: string): (r: seq<string>)
  {
    SnippetsFrom(lines, q, 0, 2)
  }

  /** Taking `k > 0` from a list with a head keeps the head. */
  lemma TakeCons<T>(x: T, w: seq<T>, k: int)
    requires k > 0
    ensures Take([x] + w, k) == [x] + Take(w, k - 1)
  {
    if k - 1 < |w| {
      assert ([x] + w)[..k] == [x] + w[..k - 1];
    }
  }

  /** The early-exit loop keeps exactly the first `room` windows. */
  lemma {:induction false} SnippetsAreFirstWindows(lines: seq<string>, q: string, i: nat, room: nat)
    requires i <= |lines|
    ensures SnippetsFrom(lines, q, i, room) == Take(WindowsFrom(lines, q, i), room)
    decreases |lines| - i
  {
    if i < |lines| && room > 0 {
      if Mentions(lines[i], q) {
        SnippetsAreFirstWindows(lines, q, i + 1, room - 1);
        TakeCons(Window(lines, i), WindowsFrom(lines, q, i + 1), room);
      } else {
        SnippetsAreFirstWindows(lines, q, i + 1, room);
      }
    }
  }

  /** Every window from `i` on belongs to a line at or after `i` that mentions the query. */
  lemma {:induction false} WindowsMention(lines: seq<string>, q: string, i: nat)
    requires i <= |lines|
    ensures forall w :: w in WindowsFrom(lines, q, i) ==>
              exists j :: i <= j < |lines| && Mentions(lines[j], q) && w == Window(lines, j)
    decreases |lines| - i
  {
    if i < |lines| {
      WindowsMention(lines, q, i + 1);
    }
  }

  /**
   * A file's snippets: at most two, each the window of a line that mentions
   * the query, holding that line and at most one line on each side.
   */
  lemma SnippetsOfMatchingLines(lines: seq<string>, q: string)
    ensures |Snippets(lines, q)| <= 2
    ensures forall s :: s in Snippets(lines, q) ==>
              exists j :: 0 <= j < |lines| && Mentions(lines[j], q) && s == Window(lines, j)
                          && Contains(s, lines[j])
  {
    SnippetsAreFirstWindows(lines, q, 0, 2);
    WindowsMention(lines, q, 0);
    forall s | s in Snippets(lines, q)
      ensures exists j :: 0 <= j < |lines| && Mentions(lines[j], q) && s == Window(lines, j)
                          && Contains(s, lines[j])
    {
      var w := WindowsFrom(lines, q, 0);
      assert s in w by { var k :| 0 <= k < |Snippets(lines, q)| && Snippets(lines, q)[k] == s; assert w[k] == s; }
      var j :| 0 <= j < |lines| && Mentions(lines[j], q) && s == Window(lines, j);
      var wl := WindowLines(lines, j);
      var k :| 0 <= k < |wl| && wl[k] == lines[j];
      JoinContains(wl, "\n", k);
    }
  }

  /** The result entry for a matched file. */
  function Entry(f: MeetingFile, q: string): Found
  {
    Found(TitleOf(f.content), f.name, Snippets(Lines(f.content), q))
  }

  /** The entries of every file whose content mentions the query, in listing order. */
  function Entries(files: seq<MeetingFile>, q: string): (r: seq<Found>)
    ensures |r| <= |files|
    decreases |files|
  {
    if files == [] then []
    else (if Mentions(files[0].content, q) then [Entry(files[0], q)] else []) + Entries(files[1..], q)
  }

  /**
   * What the outer loop collects when `room` more results are wanted: a
   * matched file is appended before the `len(results) >= limit` test, so at
   * least one result is kept whatever the limit.
   */
  function FoundFrom(files: seq<MeetingFile>, q: string, room: int): (r: seq<Found>)
    decreases |files|
  {
    if files == [] then []
    else if Mentions(files[0].content, q) then
      [Entry(files[0], q)] + (if room <= 1 then [] else FoundFrom(files[1..], q, room - 1))
    else FoundFrom(files[1..], q, room)
  }

  /** The results are the first `max(limit, 1)` matched files, in listing order. */
  lemma {:induction false} FoundIsFirstEntries(files: seq<MeetingFile>, q: string, room: int)
    ensures FoundFrom(files, q, room) == Take(Entries(files, q), if room <= 1 then 1 else room)
    decreases |files|
  {
    if files != [] {
      var e := Entries(files[1..], q);
      if Mentions(files[0].content, q) {
        assert Entries(files, q) == [Entry(files[0], q)] + e;
        if room <= 1 {
          TakeCons(Entry(files[0], q), e, 1);
          assert Take(e, 0) == [];
        } else {
          FoundIsFirstEntries(files[1..], q, room - 1);
          TakeCons(Entry(files[0], q), e, room);
          assert FoundFrom(files, q, room) == [Entry(files[0], q)] + FoundFrom(files[1..], q, room - 1);
        }
      } else {
        assert Entries(files, q) == e;
        FoundIsFirstEntries(files[1..], q, room);
      }
    }
  }

  /** No entries exactly when no file mentions the query. */
  lemma {:induction false} EntriesEmptyIff(files: seq<MeetingFile>, q: string)
    ensures Entries(files, q) == [] <==> forall k :: 0 <= k < |files| ==> !Mentions(files[k].content, q)
    decreases |files|
  {
    if files != [] {
      EntriesEmptyIff(files[1..], q);
      assert forall k :: 0 < k < |files| ==> files[k] == files[1..][k - 1];
    }
  }

  /**
   * At most `limit` results for a positive limit, and exactly one result for
   * a limit of zero or less when some file matches; none exactly when no
   * file mentions the query.
   */
  lemma SearchResultCount(files: seq<MeetingFile>, q: string, limit: int)
    ensures limit >= 1 ==> |FoundFrom(files, q, limit)| <= limit
    ensures |FoundFrom(files, q, limit)| <= |Entries(files, q)|
    ensures FoundFrom(files, q, limit) == [] <==> forall k :: 0 <= k < |files| ==> !Mentions(files[k].content, q)
    ensures limit <= 1 && FoundFrom(files, q, limit) != [] ==> |FoundFrom(files, q, limit)| == 1
  {
    FoundIsFirstEntries(files, q, limit);
    EntriesEmptyIff(files, q);
  }

  /** The lines `search_meetings` prints for one result. */
  function Block(r: Found): seq<string>
  {
    ["### " + r.title + "\n_File: " + r.file + "_\n"]
    + seq(|r.snippets|, i requires 0 <= i < |r.snippets| => ">" + r.snippets[i] + "\n")
  }

  /** The output list for a sequence of results. */
  function OutputLines(rs: seq<Found>): (r: seq<string>)
    ensures |r| >= |rs|
    decreases |rs|
  {
    if rs == [] then [] else OutputLines(rs[..|rs| - 1]) + Block(rs[|rs| - 1])
  }

  /** The text `search_meetings(query, limit)` returns. */
  function SearchText(dirExists: bool, files: seq<MeetingFile>, query: string, limit: int): string
  {
    if !dirExists then NoMeetings
    else
      var rs := FoundFrom(files, Lower(query), limit);
      if rs == [] then NoMatch(query) else Join(OutputLines(rs), "\n")
  }

  /** The inner loop of `search_meetings`: up to two snippets, stopping at the second. */
  method MatchingSnippets(lines: seq<string>, q: string) returns (matching: seq<string>)
    ensures matching == Snippets(lines, q)
  {
    matching := [];
    var i := 0;
    while i < |lines|
      invariant 0 <= i <= |lines| && |matching| < 2
      invariant matching + SnippetsFrom(lines, q, i, 2 - |matching|) == Snippets(lines, q)
      decreases |lines| - i
    {
      if Mentions(lines[i], q) {
        ghost var before := matching;
        var w := Window(lines, i);
        matching := matching + [w];
        assert before + ([w] + SnippetsFrom(lines, q, i + 1, 2 - |matching|))
               == matching + SnippetsFrom(lines, q, i + 1, 2 - |matching|);
        if |matching| >= 2 {
          return;
        }
      }
      i := i + 1;
    }
  }

  /** The outer loop of `search_meetings`: collect matched files until `limit` results. */
  method CollectResults(files: seq<MeetingFile>, q: string, limit: int) returns (results: seq<Found>)
    ensures results == FoundFrom(files, q, limit)
  {
    results := [];
    var k := 0;
    while k < |files|
      invariant 0 <= k <= |files|
      invariant results + FoundFrom(files[k..], q, limit - |results|) == FoundFrom(files, q, limit)
      decreases |files| - k
    {
      var f := files[k];
      ghost var room := limit - |results|;
      FoundFromAt(files, k, q, room);
      if Mentions(f.content, q) {
        var e := Collect(f, q);
        ghost var before := results;
        results := results + [e];
        if |results| >= limit {
          return;
        }
        assert before + ([e] + FoundFrom(files[k + 1..], q, room - 1))
               == results + FoundFrom(files[k + 1..], q, room - 1);
      }
      k := k + 1;
    }
  }

  /** The result entry of one matched file: its title, its name and its snippets. */
  method Collect(f: MeetingFile, q: string) returns (e: Found)
    ensures e == Entry(f, q)
  {
    var lines := Lines(f.content);
    var snippets := MatchingSnippets(lines, q);
    e := Found(TitleOf(f.content), f.name, snippets);
  }

  /** `FoundFrom` on the files from position `k` on, one file unfolded. */
  lemma FoundFromAt(files: seq<MeetingFile>, k: nat, q: string, room: int)
    requires k < |files|
    ensures FoundFrom(files[k..], q, room)
            == if Mentions(files[k].content, q) then
                 [Entry(files[k], q)] + (if room <= 1 then [] else FoundFrom(files[k + 1..], q, room - 1))
               else FoundFrom(files[k + 1..], q, room)
  {
    assert files[k..][0] == files[k] && files[k..][1..] == files[k + 1..];
  }

  /** The output loop of `search_meetings`. */
  method Render(results: seq<Found>) returns (output: seq<string>)
    ensures output == OutputLines(results)
  {
    output := [];
    var k := 0;
    while k < |results|
      invariant 0 <= k <= |results|
      invariant output == OutputLines(results[..k])
    {
      var r := results[k];
      assert results[..k + 1][..k] == results[..k];
      output := output + ["### " + r.title + "\n_File: " + r.file + "_\n"];
      var j := 0;
      while j < |r.snippets|
        invariant 0 <= j <= |r.snippets|
        invariant output == OutputLines(results[..k]) + Block(r)[..j + 1]
      {
        output := output + [">" + r.snippets[j] + "\n"];
        j := j + 1;
      }
      k := k + 1;
    }
    assert results[..|results|] == results;
  }

  /** `search_meetings(query, limit)` over the meetings directory. */
  method SearchMeetings(dirExists: bool, files: seq<MeetingFile>, query: string, limit: int) returns (text: string)
    ensures text == SearchText(dirExists, files, query, limit)
  {
    if !dirExists {
      return NoMeetings;
    }
    var results := CollectResults(files, Lower(query), limit);
    if results == [] {
      return NoMatch(query);
    }
    var output := Render(results);
    text := Join(output, "\n");
  }

  /** The three kinds of answer: no directory, no match, or the rendered results starting with the first title. */
  lemma SearchTextCases(dirExists: bool, files: seq<MeetingFile>, query: string, limit: int)
    ensures !dirExists ==> SearchText(dirExists, files, query, limit) == NoMeetings
    ensures dirExists && (forall k :: 0 <= k < |files| ==> !Mentions(files[k].content, Lower(query))) ==>
              SearchText(dirExists, files, query, limit) == NoMatch(query)
    ensures dirExists && FoundFrom(files, Lower(query), limit) != [] ==>
              StartsWith(SearchText(dirExists, files, query, limit),
                         "### " + FoundFrom(files, Lower(query), limit)[0].title + "\n_File: ")
  {
    SearchResultCount(files, Lower(query), limit);
    var rs := FoundFrom(files, Lower(query), limit);
    if dirExists && rs != [] {
      OutputHead(rs);
      var out := OutputLines(rs);
      var head := "### " + rs[0].title + "\n_File: ";
      assert StartsWith(out[0], head);
      if |out| > 1 {
        assert Join(out, "\n") == out[0] + ("\n" + Join(out[1..], "\n"));
      }
    }
  }

  /** The output opens with the first result's heading line. */
  lemma {:induction false} OutputHead(rs: seq<Found>)
    requires rs != []
    ensures OutputLines(rs)[0] == "### " + rs[0].title + "\n_File: " + rs[0].file + "_\n"
    decreases |rs|
  {
    if |rs| > 1 {
      OutputHead(rs[..|rs| - 1]);
    }
  }

  // ---------------------------------------------------------------------
  // Recent meetings
  // ---------------------------------------------------------------------

  /** `content[:500] + "..."` for content over 500 characters, the content itself otherwise. */
  function Preview(content: string): (r: string)
    ensures |content| <= 500 ==> r == content
    ensures |content| > 500 ==> |r| == 503 && StartsWith(r, content[..500]) && EndsWith(r, "...")
  {
    if |content| > 500 then content[..500] + "..." else content
  }

  /** The preview is the hook's truncation at 500 characters. */
  lemma PreviewIsTruncation(content: string)
    ensures Preview(content) == Hooks.Truncate(content, 500)
    ensures |Preview(content)| <= 503
  {
  }

  /** Names in descending order, `sorted(..., reverse=True)`. */
  function NewestFirst(a: MeetingFile, b: MeetingFile): bool
  {
    !LexLess(a.name, b.name)
  }

  lemma NewestFirstIsPreorder()
    ensures Sorting.TotalPreorder(NewestFirst)
  {
    forall a: MeetingFile, b: MeetingFile ensures NewestFirst(a, b) || NewestFirst(b, a) {
      if LexLess(a.name, b.name) { LexLessAsymmetric(a.name, b.name); }
    }
    forall a: MeetingFile, b: MeetingFile, c: MeetingFile | NewestFirst(a, b) && NewestFirst(b, c)
      ensures NewestFirst(a, c)
    {
      LexLessTotal(a.name, b.name);
      LexLessTotal(b.name, c.name);
      if LexLess(a.name, c.name) {
        if a.name != b.name && b.name != c.name {
          LexLessTransitive(c.name, b.name, a.name);
          LexLessAsymmetric(c.name, a.name);
        }
      }
    }
  }

  /** The files `get_recent_meetings` shows: the listing sorted by name, newest first, then `[:limit]`. */
  function Chosen(files: seq<MeetingFile>, limit: int): seq<MeetingFile>
  {
    Take(Sorting.Sort(files, NewestFirst), limit)
  }

  /** One shown meeting: title, file name, and the preview. */
  function RecentBlock(f: MeetingFile): string
  {
    "### " + TitleOf(f.content) + "\n_File: " + f.name + "_\n\n" + Preview(f.content) + "\n"
  }

  /** The text `get_recent_meetings(limit)` returns. */
  function RecentMeetings(dirExists: bool, files: seq<MeetingFile>, limit: int): string
  {
    if !dirExists then NoMeetings
    else
      var chosen := Chosen(files, limit);
      Join(seq(|chosen|, i requires 0 <= i < |chosen| => RecentBlock(chosen[i])), "\n---\n")
  }

  /**
   * The shown files come in descending name order, are files of the
   * listing, number `limit` when there are that many, and the first has the
   * greatest name of the whole directory.
   */
  lemma ChosenAreNewest(files: seq<MeetingFile>, limit: int)
    ensures Sorting.SortedBy(Chosen(files, limit), NewestFirst)
    ensures multiset(Chosen(files, limit)) <= multiset(files)
    ensures 0 <= limit <= |files| ==> |Chosen(files, limit)| == limit
    ensures limit >= |files| ==> |Chosen(files, limit)| == |files|
    ensures Chosen(files, limit) != [] ==> forall f :: f in files ==> !LexLess(Chosen(files, limit)[0].name, f.name)
  {
    var sorted := Sorting.Sort(files, NewestFirst);
    var chosen := Chosen(files, limit);
    NewestFirstIsPreorder();
    Sorting.SortSorted(files, NewestFirst);
    assert chosen == sorted[..|chosen|];
    Sorting.PrefixSorted(sorted, |chosen|, NewestFirst);
    if chosen != [] {
      forall f | f in files ensures !LexLess(chosen[0].name, f.name) {
        assert f in multiset(sorted);
        Sorting.HeadFirst(sorted, f, NewestFirst);
      }
    }
  }

  /** An existing but empty meetings directory gives "" rather than the no-meetings message. */
  lemma EmptyDirectoryGivesNothing(limit: int)
    ensures RecentMeetings(true, [], limit) == ""
    ensures RecentMeetings(false, [], limit) == NoMeetings
  {
  }
}
