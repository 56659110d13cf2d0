/**
 * The hooks that keep an agent working: on Stop, read the Markdown work
 * queue, collect its unchecked `- [ ]` lines and, when there are any, hand
 * them back to the agent as a numbered list; and the Stop logger with its
 * timesheet line.
 *
 * The work-queue file is a value (absent, unreadable, or its text); the
 * timestamp and whether the timesheet exists are parameters.
 */
module WorkHooks {
  import opened Optional
  import opened Text
  import Queue

  /** The Markdown work-queue file as the hook finds it. */
  datatype WorkFile = Absent | Unreadable | Contents(text: string)

  /** The check box of an open item. */
  const UncheckedBox: string := "- [ ]"

  /** The task text of every line whose stripped form starts with `- [ ]`, in line order. */
  function ItemsOf(lines: seq<string>): (r: seq<string>)
    ensures |r| <= |lines|
    decreases |lines|
  {
    if lines == [] then []
    else
      var l := Strip(lines[0]);
      (if StartsWith(l, UncheckedBox) then [Strip(l[5..])] else []) + ItemsOf(lines[1..])
  }

  /** `_get_pending_work`: the task texts of the open items, or nothing when the file is absent or unreadable. */
  function PendingWork(file: WorkFile): (r: seq<string>)
    ensures file.Contents? ==> |r| <= |Split(file.text, '\n')|
  {
    match file
    case Contents(text) => ItemsOf(Split(text, '\n'))
    case _ => []
  }

  /** The numbered lines `"{i}. {task}"`, counting from 1. */
  function Numbered(items: seq<string>): (r: seq<string>)
    ensures |r| == |items|
  {
    seq(|items|, i requires 0 <= i < |items| => NatToString(i + 1) + ". " + items[i])
  }

  /** Every item appears in the numbered list. */
  lemma NumberedContains(items: seq<string>)
    ensures forall k :: 0 <= k < |items| ==> Contains(Join(Numbered(items), "\n"), items[k])
  {
    var lines := Numbered(items);
    JoinContainsAll(lines, "\n");
    forall k | 0 <= k < |items| ensures Contains(Join(lines, "\n"), items[k]) {
      var j := |lines[k]| - |items[k]|;
      assert lines[k][j..] == items[k];
      assert StartsWith(lines[k][j..], items[k]);
      ContainsWithin(Join(lines, "\n"), lines[k], items[k], j);
    }
  }

  /** `_format_work_items`. */
  function FormatWorkItems(items: seq<string>): (r: string)
    ensures forall k :: 0 <= k < |items| ==> Contains(r, items[k])
  {
    NumberedContains(items);
    Join(Numbered(items), "\n")
  }

  const Intro: string := "\nAUTONOMOUS MODE: You have pending tasks in the work queue.\nBefore fully stopping, please review and address these items:\n\n"
  const Outro: string := "\n\nIf you've completed your current task and these items need attention,\ncontinue working on them. Otherwise, acknowledge completion.\n"

  /** What a Stop hook returns: `{}` or a `systemMessage`. */
  datatype StopOutput = NoOutput | SystemMessage(text: string)

  /** `check_for_more_work`. */
  function CheckForMoreWork(event: string, file: WorkFile): (r: StopOutput)
    ensures r.SystemMessage? ==> StartsWith(r.text, Intro) && EndsWith(r.text, Outro)
  {
    if event != "Stop" then NoOutput
    else
      var items := PendingWork(file);
      if items == [] then NoOutput
      else SystemMessage(Intro + FormatWorkItems(items) + Outro)
  }

  /** What `log_stop_reason` returns, logs and appends to the timesheet. */
  datatype StopLog = StopLog(output: StopOutput, line: Option<string>, timesheet: Option<string>)

  /** The dash of the timesheet line, exactly as the source text spells it (a mis-decoded em dash). */
  const TimesheetDash: string := "\U{E2}\U{20AC}\U{201D}"

  /** `log_stop_reason`; `sessionId` is absent when the input has no `session_id`. */
  function LogStopReason(event: string, sessionId: Option<string>, stopHookActive: string, stamp: string,
                         timesheetExists: bool): (r: StopLog)
    ensures r.output == NoOutput
    ensures r.line.Some? <==> event == "Stop"
    ensures r.timesheet.Some? <==> event == "Stop" && timesheetExists
  {
    if event != "Stop" then StopLog(NoOutput, None, None)
    else
      var line := "[" + stamp + "] AGENT STOPPING | session: " + sessionId.GetOr("unknown")
                  + " | stop_hook_active: " + stopHookActive;
      var entry := if timesheetExists then Some("\n- **" + stamp + "** " + TimesheetDash + " Agent session ended") else None;
      StopLog(NoOutput, Some(line), entry)
  }

  // ---------------------------------------------------------------------
  // Properties
  // ---------------------------------------------------------------------

  /** An absent or unreadable file yields no work. */
  lemma NoFileNoWork()
    ensures PendingWork(Absent) == [] && PendingWork(Unreadable) == []
  {
  }

  /** The hook speaks exactly on Stop with open items, and then embeds the numbered list. */
  lemma CheckSpeaksIff(event: string, file: WorkFile)
    ensures CheckForMoreWork(event, file).SystemMessage? <==> event == "Stop" && PendingWork(file) != []
    ensures CheckForMoreWork(event, file).SystemMessage? ==>
              var text := CheckForMoreWork(event, file).text;
              text == Intro + FormatWorkItems(PendingWork(file)) + Outro
              && StartsWith(text[|Intro|..], FormatWorkItems(PendingWork(file)))
  {
    if CheckForMoreWork(event, file).SystemMessage? {
      InfixAfter(Intro, FormatWorkItems(PendingWork(file)), Outro);
    }
  }

  lemma InfixAfter(a: string, b: string, c: string)
    ensures StartsWith((a + b + c)[|a|..], b)
  {
    assert (a + b + c)[|a|..] == b + c;
  }

  /** A text that neither starts nor ends with whitespace, as `str.strip` leaves it. */
  predicate Stripped(t: string)
  {
    t == [] || (!IsSpace(t[0]) && !IsSpace(t[|t| - 1]))
  }

  /** The item a line yields, if any: facts about it that need `Strip`'s properties. */
  lemma LineItem(line: string)
    ensures var l := Strip(line);
            StartsWith(l, UncheckedBox) ==>
              Stripped(Strip(l[5..])) && ('\n' !in line ==> '\n' !in Strip(l[5..]))
  {
    var l := Strip(line);
    StripSubset(line, IsSpace);
    if StartsWith(l, UncheckedBox) {
      StripSubset(l[5..], IsSpace);
      assert forall c :: c in l[5..] ==> c in l;
    }
  }

  /** Every item is a stripped text: it neither starts nor ends with whitespace. */
  lemma {:induction false} ItemsStripped(lines: seq<string>)
    ensures forall t :: t in ItemsOf(lines) ==> Stripped(t)
    decreases |lines|
  {
    if lines != [] {
      ItemsStripped(lines[1..]);
      LineItem(lines[0]);
    }
  }

  /** Items read from lines free of newlines are free of newlines. */
  lemma {:induction false} ItemsNoNewline(lines: seq<string>)
    requires forall k :: 0 <= k < |lines| ==> '\n' !in lines[k]
    ensures forall t :: t in ItemsOf(lines) ==> '\n' !in t
    decreases |lines|
  {
    if lines != [] {
      assert forall k :: 0 <= k < |lines[1..]| ==> '\n' !in lines[1..][k] by {
        forall k | 0 <= k < |lines[1..]| ensures '\n' !in lines[1..][k] { assert lines[1..][k] == lines[k + 1]; }
      }
      ItemsNoNewline(lines[1..]);
      LineItem(lines[0]);
    }
  }

  /** One numbered line: its number, then ". ", then the item; no newline when the item has none. */
  lemma NumberedLine(items: seq<string>, k: nat)
    requires k < |items|
    ensures StartsWith(Numbered(items)[k], NatToString(k + 1) + ". ")
    ensures EndsWith(Numbered(items)[k], items[k])
    ensures DecimalValue(NatToString(k + 1)) == k + 1
    ensures '\n' !in items[k] ==> '\n' !in Numbered(items)[k]
  {
    var p := NatToString(k + 1) + ". ";
    var l := Numbered(items)[k];
    assert l == p + items[k];
    assert l[..|p|] == p;
    assert l[|l| - |items[k]|..] == items[k];
    assert '\n' !in p by {
      var d := NatToString(k + 1);
      assert forall j :: 0 <= j < |d| ==> d[j] != '\n';
    }
    DecimalRoundTrip(k + 1);
  }

  /** With newline-free items the formatted list reads back, line by line, as the numbered items. */
  lemma FormatReadsBack(items: seq<string>)
    requires items != [] && forall i :: 0 <= i < |items| ==> '\n' !in items[i]
    ensures Split(FormatWorkItems(items), '\n') == Numbered(items)
    ensures forall k :: 0 <= k < |items| ==>
              StartsWith(Numbered(items)[k], NatToString(k + 1) + ". ")
              && EndsWith(Numbered(items)[k], items[k])
              && DecimalValue(NatToString(k + 1)) == k + 1
  {
    var lines := Numbered(items);
    forall k | 0 <= k < |items|
      ensures '\n' !in lines[k]
      ensures StartsWith(lines[k], NatToString(k + 1) + ". ") && EndsWith(lines[k], items[k])
      ensures DecimalValue(NatToString(k + 1)) == k + 1
    {
      NumberedLine(items, k);
    }
    SplitJoin(lines, '\n');
  }

  // ---------------------------------------------------------------------
  // Reading the queue's own summary
  // ---------------------------------------------------------------------

  /** A line with no newline that does not start with whitespace. */
  predicate LineOk(l: string)
  {
    '\n' !in l && (l == [] || !IsSpace(l[0]))
  }

  predicate AllOk(lines: seq<string>)
  {
    forall i :: 0 <= i < |lines| ==> LineOk(lines[i])
  }

  /** The text fields a summary line prints carry no newline. */
  predicate CleanTask(t: Queue.Task)
  {
    '\n' !in t.description && '\n' !in Queue.Shown(t.startedAt) && '\n' !in Queue.Shown(t.error)
  }

  lemma AllOkAppend(a: seq<string>, b: seq<string>)
    requires AllOk(a) && AllOk(b)
    ensures AllOk(a + b)
  {
    forall i | 0 <= i < |a + b| ensures LineOk((a + b)[i]) {
      if i >= |a| { assert (a + b)[i] == b[i - |a|]; }
    }
  }

  lemma MarkNoNewline(c: char)
    requires c != '\n'
    ensures '\n' !in Queue.Mark(c) && Queue.Mark(c)[0] == '-'
  {
    var m := Queue.Mark(c);
    assert m == ['-', ' ', '[', c, ']'];
  }

  lemma PriorityLabelNoNewline(p: Queue.Priority)
    ensures '\n' !in Queue.PriorityLabel(p)
  {
  }

  lemma ItemLineOk(k: Queue.LineKind, t: Queue.Task)
    requires CleanTask(t)
    ensures LineOk(Queue.ItemLine(k, t))
  {
    MarkNoNewline(Queue.MarkChar(k));
    PriorityLabelNoNewline(t.priority);
    var l := Queue.ItemLine(k, t);
    assert l[..5] == Queue.Mark(Queue.MarkChar(k));
    assert l[0] == '-';
  }

  lemma SectionOk(heading: string, k: Queue.LineKind, ts: seq<Queue.Task>)
    requires LineOk(heading)
    requires forall t :: t in ts ==> CleanTask(t)
    ensures AllOk(Queue.Section(heading, Queue.ItemLines(k, ts)))
  {
    var items := Queue.ItemLines(k, ts);
    forall i | 0 <= i < |items| ensures LineOk(items[i]) {
      assert ts[i] in ts;
      ItemLineOk(k, ts[i]);
    }
    if items != [] {
      AllOkAppend([heading], items);
      AllOkAppend([heading] + items, [""]);
    }
  }

  lemma HeaderOk(now: string)
    requires '\n' !in now
    ensures AllOk(Queue.Header(now))
  {
    var h := Queue.Header(now);
    assert ("Last updated: " + now)[0] == 'L';
    assert h == ["# Work Queue", "", "Last updated: " + now, ""];
  }

  lemma InProgressSectionOk(ts: seq<Queue.Task>)
    requires forall t :: t in ts ==> CleanTask(t)
    ensures AllOk(Queue.InProgressSection(ts))
  {
    Queue.WithStatusMembers(ts, Queue.InProgress);
    SectionOk("## In Progress", Queue.InProgressItem, Queue.WithStatus(ts, Queue.InProgress));
  }

  lemma PendingSectionOk(ts: seq<Queue.Task>)
    requires forall t :: t in ts ==> CleanTask(t)
    ensures AllOk(Queue.PendingSection(ts))
  {
    var pe := Queue.WithStatus(ts, Queue.Pending);
    Queue.WithStatusMembers(ts, Queue.Pending);
    var sorted := Queue.ByPriorityDesc(pe);
    forall t | t in sorted ensures CleanTask(t) {
      assert t in multiset(sorted);
      assert t in multiset(pe);
    }
    SectionOk("## Pending", Queue.PendingItem, sorted);
  }

  lemma CompletedSectionOk(ts: seq<Queue.Task>)
    requires forall t :: t in ts ==> CleanTask(t)
    ensures AllOk(Queue.CompletedSection(ts))
  {
    var co := Queue.WithStatus(ts, Queue.Completed);
    Queue.WithStatusMembers(ts, Queue.Completed);
    assert forall t :: t in TakeLast(co, 5) ==> t in co;
    SectionOk("## Completed", Queue.CompletedItem, TakeLast(co, 5));
  }

  lemma FailedSectionOk(ts: seq<Queue.Task>)
    requires forall t :: t in ts ==> CleanTask(t)
    ensures AllOk(Queue.FailedSection(ts))
  {
    var fa := Queue.WithStatus(ts, Queue.Failed);
    Queue.WithStatusMembers(ts, Queue.Failed);
    assert forall t :: t in TakeLast(fa, 3) ==> t in fa;
    SectionOk("## Failed", Queue.FailedItem, TakeLast(fa, 3));
  }

  /** Every line of the summary is free of newlines and starts with a visible character (or is blank). */
  lemma SummaryLinesOk(ts: seq<Queue.Task>, now: string)
    requires '\n' !in now && forall t :: t in ts ==> CleanTask(t)
    ensures AllOk(Queue.SummaryLines(ts, now))
  {
    var h := Queue.Header(now);
    var s1, s2, s3, s4 := Queue.InProgressSection(ts), Queue.PendingSection(ts), Queue.CompletedSection(ts), Queue.FailedSection(ts);
    HeaderOk(now);
    InProgressSectionOk(ts);
    PendingSectionOk(ts);
    CompletedSectionOk(ts);
    FailedSectionOk(ts);
    AllOkAppend(h, s1);
    AllOkAppend(h + s1, s2);
    AllOkAppend(h + s1 + s2, s3);
    AllOkAppend(h + s1 + s2 + s3, s4);
  }

  lemma MarkIsUncheckedBox()
    ensures Queue.Mark(' ') == UncheckedBox
    ensures UncheckedBox != [] && !IsSpace(UncheckedBox[0]) && !IsSpace(UncheckedBox[|UncheckedBox| - 1])
  {
  }

  /** A plain line opens an item exactly when it starts with the summary's unchecked box. */
  lemma HeadItem(l: string)
    requires LineOk(l)
    ensures StartsWith(Strip(l), UncheckedBox) <==> StartsWith(l, Queue.Mark(' '))
  {
    MarkIsUncheckedBox();
    StripPrefixIff(l, UncheckedBox, IsSpace);
  }

  /** On plain lines, the parser finds one item per line that starts with the unchecked box. */
  lemma {:induction false} CountItems(lines: seq<string>)
    requires AllOk(lines)
    ensures |ItemsOf(lines)| == Queue.CountPrefixed(lines, Queue.Mark(' '))
    decreases |lines|
  {
    if lines != [] {
      assert AllOk(lines[1..]) by {
        forall i | 0 <= i < |lines[1..]| ensures LineOk(lines[1..][i]) { assert lines[1..][i] == lines[i + 1]; }
      }
      CountItems(lines[1..]);
      HeadItem(lines[0]);
      assert |ItemsOf(lines)| == (if StartsWith(Strip(lines[0]), UncheckedBox) then 1 else 0) + |ItemsOf(lines[1..])|;
    }
  }

  /**
   * Reading the queue's Markdown summary back, the hook finds exactly one
   * open item per in-progress task and one per pending task: completed
   * `[x]` and failed `[!]` lines, headings and blank lines never match.
   */
  lemma SummaryParsesToLiveTasks(ts: seq<Queue.Task>, now: string)
    requires '\n' !in now && forall t :: t in ts ==> CleanTask(t)
    ensures |PendingWork(Contents(Queue.SummaryText(ts, now)))|
            == |Queue.WithStatus(ts, Queue.InProgress)| + |Queue.WithStatus(ts, Queue.Pending)|
  {
    var lines := Queue.SummaryLines(ts, now);
    SummaryLinesOk(ts, now);
    assert |lines| >= 4;
    assert forall k :: 0 <= k < |lines| ==> '\n' !in lines[k] by {
      forall k | 0 <= k < |lines| ensures '\n' !in lines[k] { assert LineOk(lines[k]); }
    }
    SplitJoin(lines, '\n');
    CountItems(lines);
    Queue.SummaryCounts(ts, now);
  }

  /** So the Stop hook, pointed at the queue's summary, keeps the agent going exactly while the queue has live tasks. */
  lemma StopHookSeesLiveTasks(ts: seq<Queue.Task>, now: string)
    requires '\n' !in now && forall t :: t in ts ==> CleanTask(t)
    ensures CheckForMoreWork("Stop", Contents(Queue.SummaryText(ts, now))).SystemMessage? <==> Queue.Live(ts) != []
  {
    SummaryParsesToLiveTasks(ts, now);
    Queue.LiveCount(ts);
    CheckSpeaksIff("Stop", Contents(Queue.SummaryText(ts, now)));
  }
}
