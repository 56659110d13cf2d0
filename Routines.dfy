/**
 * The fixed table of scheduled routines and the lookup by name.
 */
module Routines {
  import opened Optional

  /** A routine: its name, a cron schedule, the prompt for the agent, where to post, and whether it runs. */
  datatype Routine = Routine(name: string, schedule: string, prompt: string, channel: Option<string>, enabled: bool)

  /** `Routine(name, schedule, prompt)` with the dataclass defaults for the rest. */
  function NewRoutine(name: string, schedule: string, prompt: string): (r: Routine)
    ensures r.channel == None && r.enabled
    ensures r.name == name && r.schedule == schedule && r.prompt == prompt
  {
    Routine(name, schedule, prompt, None, true)
  }

  /**
   * The four prompt texts of the shipped routines. They are kept apart from
   * the table so that reasoning about names, schedules, channels and flags
   * does not have to carry the long texts along.
   */
  datatype Prompts = Prompts(morningBrief: string, eveningRecap: string, proactiveCheckin: string, weeklyReview: string)

  /** `MORNING_BRIEF`: weekdays at 8:00. */
  function MorningBrief(p: Prompts): Routine
  {
    Routine("morning_brief", "0 8 * * 1-5", p.morningBrief, Some("team-jpa"), true)
  }

  /** `EVENING_RECAP`: weekdays at 18:00. */
  function EveningRecap(p: Prompts): Routine
  {
    Routine("evening_recap", "0 18 * * 1-5", p.eveningRecap, Some("team-jpa"), true)
  }

  /** `PROACTIVE_CHECKIN`: weekdays at 14:00. */
  function ProactiveCheckin(p: Prompts): Routine
  {
    Routine("proactive_checkin", "0 14 * * 1-5", p.proactiveCheckin, Some("team-jpa"), true)
  }

  /** `WEEKLY_REVIEW`: Fridays at 17:00. */
  function WeeklyReview(p: Prompts): Routine
  {
    Routine("weekly_review", "0 17 * * 5", p.weeklyReview, Some("team-jpa"), true)
  }

  /** The routine table, in the order of `ROUTINES`, for the given prompt texts. */
  function Table(p: Prompts): seq<Routine>
  {
    [MorningBrief(p), EveningRecap(p), ProactiveCheckin(p), WeeklyReview(p)]
  }

  /** The prompt texts as shipped. */
  const ShippedPrompts: Prompts := Prompts(
    @"It's morning. Time for the daily brief.

Your task:
1. Check what day/date it is
2. Review any pending items from the welcome brief
3. Check if there are recent meetings in the vault that need processing
4. Summarize what's on deck for jpa today

Post a concise morning brief to the team-jpa channel. Keep it tight — respect jpa's time.
Format: Start with the date, then 2-3 bullet points max. End with a question or offer to help.",
    @"It's end of day. Time for the evening recap.

Your task:
1. Review what happened today (check logs, recent activity)
2. Note any open items that should carry forward
3. Update the daily log if needed

Post a brief recap to team-jpa. What got done? What's carrying over?
Keep it to 2-3 bullets. Acknowledge wins. Flag blockers.",
    @"Afternoon check-in.

Your task:
1. Has jpa messaged you today? If yes and things are handled, skip this.
2. If no contact today, send a brief check-in to team-jpa
3. Keep it simple: ""Anything I can help with this afternoon?""

Only post if there's been no interaction today. Don't be annoying.",
    @"It's Friday. Time for the weekly review.

Your task:
1. Review the week's logs and activity
2. What got shipped? What moved forward?
3. What's blocked or stalled?
4. What should be the focus next week?

Post a weekly summary to team-jpa. Celebrate wins. Be honest about gaps.
This is the scoreboard moment — how are we doing?")

  /** `ROUTINES`. */
  const All: seq<Routine> := Table(ShippedPrompts)

  /** The first routine in `rs` called `name`. */
  function Find(rs: seq<Routine>, name: string): (r: Option<Routine>)
    ensures r.None? <==> forall i :: 0 <= i < |rs| ==> rs[i].name != name
    ensures r.Some? ==> exists i :: 0 <= i < |rs| && rs[i] == r.value && r.value.name == name
                                   && forall j :: 0 <= j < i ==> rs[j].name != name
    decreases |rs|
  {
    if rs == [] then None
    else if rs[0].name == name then Some(rs[0])
    else
      var r := Find(rs[1..], name);
      if r.Some? then
        ghost var i :| 0 <= i < |rs[1..]| && rs[1..][i] == r.value && r.value.name == name
                       && forall j :: 0 <= j < i ==> rs[1..][j].name != name;
        assert rs[i + 1] == r.value;
        assert forall j :: 0 < j < i + 1 ==> rs[j] == rs[1..][j - 1];
        r
      else r
  }

  /** `get_routine`. */
  function GetRoutine(name: string): (r: Option<Routine>)
    ensures r.None? <==> forall i :: 0 <= i < |All| ==> All[i].name != name
    ensures r.Some? ==> r.value in All && r.value.name == name
  {
    Find(All, name)
  }

  predicate DistinctNames(rs: seq<Routine>)
  {
    forall i, j :: 0 <= i < j < |rs| ==> rs[i].name != rs[j].name
  }

  /** In a table with distinct names, looking up a routine's name finds that routine. */
  lemma {:induction false} FindMember(rs: seq<Routine>, k: nat)
    requires DistinctNames(rs) && k < |rs|
    ensures Find(rs, rs[k].name) == Some(rs[k])
    decreases |rs|
  {
    if k > 0 {
      assert rs[0].name != rs[k].name;
      assert rs[1..][k - 1] == rs[k];
      FindMember(rs[1..], k - 1);
    }
  }

  /**
   * The shipped table, whatever its prompt texts: four enabled routines
   * posting to team-jpa, with distinct names, in this order.
   */
  lemma ShippedRoutines(p: Prompts)
    ensures |Table(p)| == 4 && DistinctNames(Table(p))
    ensures Table(p)[0].name == "morning_brief" && Table(p)[1].name == "evening_recap"
            && Table(p)[2].name == "proactive_checkin" && Table(p)[3].name == "weekly_review"
    ensures forall i :: 0 <= i < |Table(p)| ==> Table(p)[i].enabled && Table(p)[i].channel == Some("team-jpa")
  {
  }

  /** Looking up a shipped routine's name finds that routine (`get_routine(r.name) == r`). */
  lemma GetShipped(p: Prompts, k: nat)
    requires k < |Table(p)|
    ensures Find(Table(p), Table(p)[k].name) == Some(Table(p)[k])
  {
    ShippedRoutines(p);
    FindMember(Table(p), k);
  }
}
