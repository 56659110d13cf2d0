/**
 * The Granola transcript ingestor: which cached documents count as meetings,
 * how a transcript is rendered, how a meeting is dated and named, and what
 * Markdown file an ingested meeting becomes.
 *
 * The cache is a value: the documents in dictionary order and the
 * transcripts by document id. Today's date (used when a transcript carries
 * no timestamp) is a parameter.
 */
module Granola {
  import opened Optional
  import opened Text
  import Sorting

  /** A transcript segment; absent keys read as their defaults (`?` for the source, "" otherwise). */
  datatype Segment = Segment(source: string, text: string, startTimestamp: string)

  /** A cached document: its id and its title, if it has one. */
  datatype Doc = Doc(id: string, title: Option<string>)

  /** An entry of `get_meetings_with_transcripts`. */
  datatype Meeting = Meeting(id: string, title: string, segments: nat, transcript: seq<Segment>)

  // ---------------------------------------------------------------------
  // Slugs
  // ---------------------------------------------------------------------

  /** The characters the slug keeps before stripping: alphanumerics, spaces and hyphens. */
  predicate KeptForSlug(c: char)
  {
    IsAsciiAlnum(c) || c == ' ' || c == '-'
  }

  /** `slugify(title)`: keep, strip, turn spaces into hyphens, lower-case. */
  function Slugify(title: string): string
  {
    Lower(ReplaceAll(Strip(Filter(title, KeptForSlug)), " ", "-"))
  }

  /** A slug holds only ASCII digits, lower-case letters and hyphens: no spaces, no upper case. */
  lemma SlugChars(title: string)
    ensures forall i :: 0 <= i < |Slugify(title)| ==> IsSlugChar(Slugify(title)[i])
  {
    var kept := Filter(title, KeptForSlug);
    var stripped := Strip(kept);
    StripSubset(kept, IsSpace);
    FilterKeepsAll(title, KeptForSlug);
    forall i | 0 <= i < |stripped| ensures KeptForSlug(stripped[i]) {
      assert stripped[i] in stripped;
    }
    SlugOfKept(stripped);
  }

  /** Hyphenating and lower-casing kept characters leaves only slug characters. */
  lemma SlugOfKept(s: string)
    requires forall i :: 0 <= i < |s| ==> KeptForSlug(s[i])
    ensures forall i :: 0 <= i < |Lower(ReplaceAll(s, " ", "-"))| ==> IsSlugChar(Lower(ReplaceAll(s, " ", "-"))[i])
  {
    ReplaceCharAt(s, ' ', '-');
    var replaced := ReplaceAll(s, " ", "-");
    assert forall i :: 0 <= i < |replaced| ==> IsAsciiAlnum(replaced[i]) || replaced[i] == '-';
  }

  // ---------------------------------------------------------------------
  // Transcripts
  // ---------------------------------------------------------------------

  function Speaker(seg: Segment): string
  {
    if seg.source == "microphone" then "Me" else "Them"
  }

  /** A segment's text, stripped. */
  function Said(seg: Segment): string
  {
    Strip(seg.text)
  }

  /** `**{speaker}:** {text}`. */
  function Labelled(speaker: string, text: string): string
  {
    "**" + speaker + ":** " + text
  }

  /** The paragraph a segment becomes. */
  function Paragraph(seg: Segment): string
  {
    Labelled(Speaker(seg), Said(seg))
  }

  /** The paragraphs of a transcript, one per segment that says something, in order. */
  function Paragraphs(segs: seq<Segment>): (r: seq<string>)
    ensures |r| <= |segs|
    decreases |segs|
  {
    if segs == [] then []
    else (if Said(segs[0]) != "" then [Paragraph(segs[0])] else []) + Paragraphs(segs[1..])
  }

  /** `format_transcript`. */
  function FormatTranscript(segs: seq<Segment>): (r: string)
    ensures forall k :: 0 <= k < |Paragraphs(segs)| ==> Contains(r, Paragraphs(segs)[k])
  {
    JoinContainsAll(Paragraphs(segs), "\n\n");
    Join(Paragraphs(segs), "\n\n")
  }

  /** The segments that say something, in order. */
  function Spoken(segs: seq<Segment>): (r: seq<Segment>)
    decreases |segs|
  {
    if segs == [] then [] else (if Said(segs[0]) != "" then [segs[0]] else []) + Spoken(segs[1..])
  }

  /** The spoken segments are segments that say something. */
  lemma {:induction false} SpokenMembers(segs: seq<Segment>)
    ensures forall s :: s in Spoken(segs) ==> s in segs && Said(s) != ""
    decreases |segs|
  {
    if segs != [] {
      SpokenMembers(segs[1..]);
      assert forall s :: s in segs[1..] ==> s in segs;
    }
  }

  /** One paragraph per segment that says something. */
  lemma {:induction false} ParagraphsCount(segs: seq<Segment>)
    ensures |Paragraphs(segs)| == |Spoken(segs)|
    decreases |segs|
  {
    if segs != [] {
      ParagraphsCount(segs[1..]);
    }
  }

  /** One paragraph per segment with non-empty stripped text, in segment order. */
  lemma {:induction false} ParagraphsOfSpoken(segs: seq<Segment>)
    ensures |Paragraphs(segs)| == |Spoken(segs)|
    ensures forall i :: 0 <= i < |Spoken(segs)| ==> Paragraphs(segs)[i] == Paragraph(Spoken(segs)[i])
    decreases |segs|
  {
    ParagraphsCount(segs);
    if segs != [] {
      ParagraphsOfSpoken(segs[1..]);
      var rest := Spoken(segs[1..]);
      var ps := Paragraphs(segs[1..]);
      if Said(segs[0]) != "" {
        assert Spoken(segs) == [segs[0]] + rest;
        assert Paragraphs(segs) == [Paragraph(segs[0])] + ps;
        forall i | 1 <= i < |Spoken(segs)| ensures Paragraphs(segs)[i] == Paragraph(Spoken(segs)[i]) {
          assert Spoken(segs)[i] == rest[i - 1] && Paragraphs(segs)[i] == ps[i - 1];
        }
      } else {
        assert Spoken(segs) == rest;
        assert Paragraphs(segs) == ps;
      }
    }
  }

  /**
   * A paragraph is spoken by "Me" exactly when its segment came from the
   * microphone, whatever the segment says (so for `Paragraph(seg)` too).
   */
  lemma SpeakerIsMeIff(seg: Segment, said: string)
    ensures StartsWith(Labelled(Speaker(seg), said), "**Me:** ") <==> seg.source == "microphone"
    ensures seg.source != "microphone" ==> StartsWith(Labelled(Speaker(seg), said), "**Them:** ")
  {
    var me: string, them: string := "**Me:** ", "**Them:** ";
    if seg.source == "microphone" {
      assert Labelled(Speaker(seg), said) == me + said;
      assert (me + said)[..|me|] == me;
    } else {
      assert Labelled(Speaker(seg), said) == them + said;
      assert (them + said)[..|them|] == them;
      assert (them + said)[2] != me[2];
    }
  }

  // ---------------------------------------------------------------------
  // Dates
  // ---------------------------------------------------------------------

  /** `get_meeting_date`: the first ten characters of the first timestamp, or today. */
  function MeetingDate(transcript: seq<Segment>, today: string): (r: string)
    ensures transcript != [] && transcript[0].startTimestamp != "" ==>
              |r| == (if |transcript[0].startTimestamp| < 10 then |transcript[0].startTimestamp| else 10)
              && StartsWith(transcript[0].startTimestamp, r)
    ensures transcript == [] || transcript[0].startTimestamp == "" ==> r == today
  {
    if transcript != [] && transcript[0].startTimestamp != "" then Take(transcript[0].startTimestamp, 10)
    else today
  }

  // ---------------------------------------------------------------------
  // Meetings
  // ---------------------------------------------------------------------

  function TitleOf(doc: Doc): string
  {
    doc.title.GetOr("Untitled")
  }

  /** The documents that have a non-empty transcript, as meetings, in document order. */
  function WithTranscripts(docs: seq<Doc>, transcripts: map<string, seq<Segment>>): (r: seq<Meeting>)
    ensures |r| <= |docs|
    decreases |docs|
  {
    if docs == [] then []
    else
      var d := docs[0];
      (if d.id in transcripts && |transcripts[d.id]| > 0
       then [Meeting(d.id, TitleOf(d), |transcripts[d.id]|, transcripts[d.id])]
       else [])
      + WithTranscripts(docs[1..], transcripts)
  }

  /** The sort key of the meeting list. */
  function SegmentsOf(m: Meeting): int
  {
    m.segments
  }

  /** Meetings with more segments first; ties keep document order. */
  function MoreSegments(a: Meeting, b: Meeting): bool
  {
    SegmentsOf(a) >= SegmentsOf(b)
  }

  /** `get_meetings_with_transcripts`. */
  function MeetingsWithTranscripts(docs: seq<Doc>, transcripts: map<string, seq<Segment>>): seq<Meeting>
  {
    Sorting.Sort(WithTranscripts(docs, transcripts), MoreSegments)
  }

  /**
   * The filter keeps exactly the documents with a non-empty transcript,
   * counting its segments: every kept meeting is one of the documents, with
   * its title, and every such document is kept.
   */
  lemma {:induction false} WithTranscriptsMembers(docs: seq<Doc>, transcripts: map<string, seq<Segment>>)
    ensures forall m :: m in WithTranscripts(docs, transcripts) ==>
              m.id in transcripts && m.segments == |transcripts[m.id]| > 0 && m.transcript == transcripts[m.id]
    ensures forall m :: m in WithTranscripts(docs, transcripts) ==>
              exists i :: 0 <= i < |docs| && docs[i].id == m.id && m.title == TitleOf(docs[i])
    ensures forall i :: 0 <= i < |docs| && docs[i].id in transcripts && |transcripts[docs[i].id]| > 0 ==>
              Meeting(docs[i].id, TitleOf(docs[i]), |transcripts[docs[i].id]|, transcripts[docs[i].id])
              in WithTranscripts(docs, transcripts)
    decreases |docs|
  {
    if docs != [] {
      WithTranscriptsMembers(docs[1..], transcripts);
      forall i | 0 < i < |docs| ensures docs[i] == docs[1..][i - 1] { }
      forall m | m in WithTranscripts(docs[1..], transcripts)
        ensures exists i :: 0 <= i < |docs| && docs[i].id == m.id && m.title == TitleOf(docs[i])
      {
        var j :| 0 <= j < |docs[1..]| && docs[1..][j].id == m.id && m.title == TitleOf(docs[1..][j]);
        assert docs[j + 1] == docs[1..][j];
      }
    }
  }

  /**
   * The listed meetings are the documents with transcripts, each with its
   * segment count, sorted by segment count, most first; meetings with the
   * same count keep document order (the sort is stable).
   */
  lemma MeetingsSorted(docs: seq<Doc>, transcripts: map<string, seq<Segment>>)
    ensures var r := MeetingsWithTranscripts(docs, transcripts);
            multiset(r) == multiset(WithTranscripts(docs, transcripts))
            && (forall i, j :: 0 <= i < j < |r| ==> r[i].segments >= r[j].segments)
            && (forall m :: m in r ==> m.id in transcripts && m.segments == |transcripts[m.id]| > 0)
            && (forall m :: m in r ==> exists i :: 0 <= i < |docs| && docs[i].id == m.id && m.title == TitleOf(docs[i]))
            && (forall n :: Sorting.Keep(r, SegmentsOf, n) == Sorting.Keep(WithTranscripts(docs, transcripts), SegmentsOf, n))
  {
    var w := WithTranscripts(docs, transcripts);
    var r := MeetingsWithTranscripts(docs, transcripts);
    Sorting.SortByKey(w, MoreSegments, SegmentsOf);
    WithTranscriptsMembers(docs, transcripts);
    forall m | m in r ensures m in w {
      assert m in multiset(r);
      assert m in multiset(w);
    }
  }

  // ---------------------------------------------------------------------
  // Ingesting one meeting
  // ---------------------------------------------------------------------

  /** The document with the given id (ids are dictionary keys, so at most one). */
  function FindDoc(docs: seq<Doc>, id: string): (r: Option<Doc>)
    ensures r.Some? ==> r.value in docs && r.value.id == id
    ensures r.None? ==> forall i :: 0 <= i < |docs| ==> docs[i].id != id
    decreases |docs|
  {
    if docs == [] then None
    else if docs[0].id == id then Some(docs[0])
    else
      var r := FindDoc(docs[1..], id);
      assert forall d :: d in docs[1..] ==> d in docs;
      assert forall i :: 0 < i < |docs| ==> docs[i] == docs[1..][i - 1];
      r
  }

  /** The saved file's name and text. */
  datatype Ingested = Ingested(fileName: string, markdown: string)

  /** The Markdown written for a meeting. */
  function MeetingMarkdown(title: string, date: string, transcript: seq<Segment>): (r: string)
    ensures StartsWith(r, "# " + title)
    ensures Contains(r, FormatTranscript(transcript))
  {
    FramedParts("# " + title, BodyHead(date, |transcript|), FormatTranscript(transcript), "\n");
    "# " + title + MeetingBody(date, transcript)
  }

  /** Everything after the title line's heading text. */
  function MeetingBody(date: string, transcript: seq<Segment>): string
  {
    BodyHead(date, |transcript|) + FormatTranscript(transcript) + "\n"
  }

  /** The date and segment-count lines and the transcript heading. */
  function BodyHead(date: string, segments: nat): string
  {
    "\n\n**Date:** " + date + "\n**Segments:** " + NatToString(segments) + "\n\n---\n\n## Transcript\n\n"
  }

  /** `ingest_meeting(doc_id)`. */
  function IngestMeeting(docs: seq<Doc>, transcripts: map<string, seq<Segment>>, docId: string, today: string)
    : (r: Result<Ingested>)
    ensures r.Err? <==> FindDoc(docs, docId).None?
  {
    match FindDoc(docs, docId)
    case None => Err("Document " + docId + " not found")
    case Some(doc) =>
      var transcript := if docId in transcripts then transcripts[docId] else [];
      var title := TitleOf(doc);
      var date := MeetingDate(transcript, today);
      Ok(Ingested(date + "-" + Slugify(title) + ".md", MeetingMarkdown(title, date, transcript)))
  }

  /** An unknown id raises with a message naming it. */
  lemma IngestUnknown(docs: seq<Doc>, transcripts: map<string, seq<Segment>>, docId: string, today: string)
    requires forall i :: 0 <= i < |docs| ==> docs[i].id != docId
    ensures IngestMeeting(docs, transcripts, docId, today) == Err("Document " + docId + " not found")
  {
  }

  /**
   * A known meeting is saved as `<date>-<slug>.md`, dated by its first
   * timestamp's first ten characters (or today), with a slug of slug
   * characters only.
   */
  lemma IngestFileName(docs: seq<Doc>, transcripts: map<string, seq<Segment>>, docId: string, today: string)
    requires FindDoc(docs, docId).Some?
    ensures var r := IngestMeeting(docs, transcripts, docId, today);
            var transcript := if docId in transcripts then transcripts[docId] else [];
            var date := MeetingDate(transcript, today);
            var slug := Slugify(TitleOf(FindDoc(docs, docId).value));
            r.Ok? && r.value.fileName == date + "-" + slug + ".md"
            && (forall i :: 0 <= i < |slug| ==> IsSlugChar(slug[i]))
  {
    SlugChars(TitleOf(FindDoc(docs, docId).value));
  }

  /** The saved text opens with the meeting's title as a level-one heading. */
  lemma IngestHeading(docs: seq<Doc>, transcripts: map<string, seq<Segment>>, docId: string, today: string)
    requires FindDoc(docs, docId).Some?
    ensures var r := IngestMeeting(docs, transcripts, docId, today);
            r.Ok? && StartsWith(r.value.markdown, "# " + TitleOf(FindDoc(docs, docId).value))
  {
    var transcript := if docId in transcripts then transcripts[docId] else [];
    var title := TitleOf(FindDoc(docs, docId).value);
    var head := "# " + title;
    var body := MeetingBody(MeetingDate(transcript, today), transcript);
    assert (head + body)[..|head|] == head;
  }
}
