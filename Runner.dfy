/**
 * Running one routine: look it up, skip it when disabled, prefix its prompt
 * with the current time, hand the prompt to the agent, and post the answer
 * to the routine's Discord channel (Slack-era names mapped to Discord ones),
 * cut into messages of at most 2000 characters.
 *
 * The agent is a parameter from prompt to answer (`Err` when it raises), the
 * formatted clock reading is a parameter, and Discord is described by the
 * token, whether the client connects, and the text-channel names of each
 * guild the bot belongs to.
 */
module Runner {
  import opened Optional
  import opened Text
  import opened Routines

  /** Discord's message length limit. */
  const Limit: nat := 2000

  /** `[s[i:i+size] for i in range(0, len(s), size)]`. */
  function Slices(s: string, size: nat): (r: seq<string>)
    requires size > 0
    ensures Concat(r) == s
    ensures forall k :: 0 <= k < |r| ==> 0 < |r[k]| <= size
    ensures forall k :: 0 <= k < |r| - 1 ==> |r[k]| == size
    decreases |s|
  {
    if s == [] then []
    else if |s| <= size then
      assert Concat([s]) == s + Concat([]);
      [s]
    else
      var rest := Slices(s[size..], size);
      assert ([s[..size]] + rest)[1..] == rest;
      assert s == s[..size] + s[size..];
      [s[..size]] + rest
  }

  /**
   * The slicing is the only way to cut a text into non-empty pieces of at
   * most `size` characters where every piece but the last is full.
   */
  lemma {:induction false} SlicesUnique(pieces: seq<string>, size: nat)
    requires size > 0
    requires forall k :: 0 <= k < |pieces| ==> 0 < |pieces[k]| <= size
    requires forall k :: 0 <= k < |pieces| - 1 ==> |pieces[k]| == size
    ensures Slices(Concat(pieces), size) == pieces
    decreases |pieces|
  {
    if pieces != [] {
      var s := Concat(pieces);
      var tail := pieces[1..];
      assert s == pieces[0] + Concat(tail);
      if |pieces| == 1 {
        assert tail == [] && s == pieces[0];
      } else {
        assert |pieces[0]| == size;
        assert Concat(tail) != [] by { assert |pieces[1]| > 0; ConcatLength(tail); }
        assert s[..size] == pieces[0] && s[size..] == Concat(tail);
        SlicesUnique(tail, size);
        assert pieces == [pieces[0]] + tail;
      }
    }
  }

  /** One step of the slicing: the first slice is `s[:size]`. */
  lemma SlicesStep(s: string, size: nat)
    requires s != [] && size > 0
    ensures Slices(s, size) == [Take(s, size)] + Slices(s[|Take(s, size)|..], size)
  {
    if |s| <= size {
      assert s[|s|..] == [];
    }
  }

  /** A concatenation is at least as long as its first part. */
  lemma ConcatLength(parts: seq<string>)
    requires parts != []
    ensures |Concat(parts)| >= |parts[0]|
  {
  }

  /** The messages `post_to_discord` sends for `content`: one when it fits, the slices otherwise. */
  function Messages(content: string): (r: seq<string>)
    ensures |r| >= 1 && Concat(r) == content
    ensures forall k :: 0 <= k < |r| ==> |r[k]| <= Limit
    ensures |content| <= Limit <==> r == [content]
  {
    if |content| <= Limit then
      assert Concat([content]) == content + Concat([]);
      [content]
    else
      Slices(content, Limit)
  }

  /** Whether some guild has a text channel called `name`. */
  predicate HasChannel(guilds: seq<seq<string>>, name: string)
  {
    exists g, c :: 0 <= g < |guilds| && 0 <= c < |guilds[g]| && guilds[g][c] == name
  }

  /**
   * `post_to_discord`: with a token and a client that connects, send the
   * messages to the first text channel called `channelName`, scanning guilds
   * and their channels in order. `sent` is what reaches that channel.
   */
  method PostToDiscord(token: string, connects: bool, guilds: seq<seq<string>>, channelName: string, content: string)
    returns (posted: bool, sent: seq<string>)
    ensures posted <==> token != "" && connects && HasChannel(guilds, channelName)
    ensures sent == (if posted then Messages(content) else [])
  {
    posted, sent := false, [];
    if token == "" || !connects {
      return;
    }
    var g := 0;
    while g < |guilds|
      invariant 0 <= g <= |guilds|
      invariant forall g', c :: 0 <= g' < g && 0 <= c < |guilds[g']| ==> guilds[g'][c] != channelName
    {
      var c := 0;
      while c < |guilds[g]|
        invariant 0 <= c <= |guilds[g]|
        invariant forall c' :: 0 <= c' < c ==> guilds[g][c'] != channelName
      {
        if guilds[g][c] == channelName {
          if |content| <= Limit {
            sent := [content];
          } else {
            var chunks := Slices(content, Limit);
            var i := 0;
            while i < |chunks|
              invariant 0 <= i <= |chunks|
              invariant sent == chunks[..i]
            {
              sent := sent + [chunks[i]];
              i := i + 1;
            }
          }
          posted := true;
          return;
        }
        c := c + 1;
      }
      g := g + 1;
    }
  }

  /** The names of a routine table, `r.name for r in ROUTINES`. */
  function Names(table: seq<Routine>): (r: seq<string>)
    ensures |r| == |table| && forall i :: 0 <= i < |table| ==> r[i] == table[i].name
  {
    seq(|table|, i requires 0 <= i < |table| => table[i].name)
  }

  /** The `ValueError` message for an unknown routine name. */
  function UnknownMessage(table: seq<Routine>, name: string): string
  {
    "Unknown routine: " + name + ". Available: " + Join(Names(table), ", ")
  }

  /** The time context put in front of every routine prompt, around the formatted clock reading. */
  function TimeContext(stamp: string): (r: string)
    ensures StartsWith(r, "Current time: ") && EndsWith(r, "\n\n")
    ensures |r| == |stamp| + 16 && r[14..|r| - 2] == stamp
  {
    "Current time: " + stamp + "\n\n"
  }

  /** The Slack-era channel map: `team-jpa` now lives in `general`. */
  function MapChannel(channel: string): (r: string)
    ensures r != "team-jpa"
  {
    if channel == "team-jpa" then "general" else channel
  }

  /** A post made by a run: the Discord channel and the text. */
  datatype Post = Post(channel: string, content: string)

  /**
   * What one `run_routine` call does: the prompt it gives the agent (if
   * any), what it returns or raises, and the post it asks for (if any).
   */
  datatype Run = Run(prompt: Option<string>, result: Result<string>, post: Option<Post>)

  /** `run_routine(name, dry_run)` against the routine table `table` (`ROUTINES` in the program). */
  function RunRoutine(table: seq<Routine>, name: string, dryRun: bool, stamp: string, agent: string -> Result<string>)
    : (r: Run)
    ensures r.prompt.Some? <==> Find(table, name).Some? && Find(table, name).value.enabled
    ensures r.post.Some? ==> !dryRun && r.prompt.Some? && r.result == Ok(r.post.value.content)
    ensures r.prompt.None? && r.result.Err? ==> Find(table, name).None?
  {
    match Find(table, name)
    case None => Run(None, Err(UnknownMessage(table, name)), None)
    case Some(routine) =>
      if !routine.enabled then Run(None, Ok(""), None)
      else
        var prompt := TimeContext(stamp) + routine.prompt;
        match agent(prompt)
        case Err(e) => Run(Some(prompt), Err(e), None)
        case Ok(response) =>
          if dryRun then Run(Some(prompt), Ok(response), None)
          else if routine.channel.Some? && routine.channel.value != "" then
            Run(Some(prompt), Ok(response), Some(Post(MapChannel(routine.channel.value), response)))
          else Run(Some(prompt), Ok(response), None)
  }

  /** An unknown name raises, without consulting the agent, and the message lists every routine name. */
  lemma UnknownListsEveryName(table: seq<Routine>, name: string, dryRun: bool, stamp: string,
                              agent: string -> Result<string>, k: nat)
    requires Find(table, name).None? && k < |table|
    ensures var r := RunRoutine(table, name, dryRun, stamp, agent);
            r.prompt.None? && r.post.None? && r.result.Err?
            && Contains(r.result.message, table[k].name) && Contains(r.result.message, name)
  {
    assert RunRoutine(table, name, dryRun, stamp, agent) == Run(None, Err(UnknownMessage(table, name)), None);
    UnknownMessageNames(table, name, k);
  }

  /** The message for an unknown name mentions that name and the name of every routine. */
  lemma UnknownMessageNames(table: seq<Routine>, name: string, k: nat)
    requires k < |table|
    ensures Contains(UnknownMessage(table, name), table[k].name) && Contains(UnknownMessage(table, name), name)
  {
    assert Names(table)[k] == table[k].name;
    JoinContains(Names(table), ", ", k);
    FillsContained("Unknown routine: ", name, ". Available: ", Join(Names(table), ", "), table[k].name);
  }

  /** Text filled into a template `a x b y` is found in the result, whatever is around it. */
  lemma FillsContained(a: string, x: string, b: string, y: string, p: string)
    requires Contains(y, p)
    ensures Contains(a + x + b + y, p) && Contains(a + x + b + y, x)
  {
    ContainsAfter(a + x + b, y, p);
    ContainsMiddle(a, x, b + y);
    assert a + x + (b + y) == a + x + b + y;
  }

  /** A disabled routine returns "" and neither prompts the agent nor posts. */
  lemma DisabledSkips(table: seq<Routine>, name: string, dryRun: bool, stamp: string, agent: string -> Result<string>)
    requires Find(table, name).Some? && !Find(table, name).value.enabled
    ensures RunRoutine(table, name, dryRun, stamp, agent) == Run(None, Ok(""), None)
  {
  }

  /** Whenever the agent is skipped, the run does not depend on the agent at all. */
  lemma SkippedRunIgnoresAgent(table: seq<Routine>, name: string, dryRun: bool, stamp: string,
                               agent1: string -> Result<string>, agent2: string -> Result<string>)
    requires RunRoutine(table, name, dryRun, stamp, agent1).prompt.None?
    ensures RunRoutine(table, name, dryRun, stamp, agent1) == RunRoutine(table, name, dryRun, stamp, agent2)
  {
  }

  /** The agent's prompt starts with the time context and ends with the routine's prompt, unchanged. */
  lemma PromptKeepsRoutinePrompt(table: seq<Routine>, name: string, dryRun: bool, stamp: string,
                                 agent: string -> Result<string>)
    requires RunRoutine(table, name, dryRun, stamp, agent).prompt.Some?
    ensures var p := RunRoutine(table, name, dryRun, stamp, agent).prompt.value;
            StartsWith(p, "Current time: ") && StartsWith(p, TimeContext(stamp))
            && EndsWith(p, Find(table, name).value.prompt)
  {
    var p := RunRoutine(table, name, dryRun, stamp, agent).prompt.value;
    assert p == TimeContext(stamp) + Find(table, name).value.prompt;
    assert p[..|TimeContext(stamp)|] == TimeContext(stamp);
    assert TimeContext(stamp)[..14] == "Current time: ";
  }

  /** A dry run returns the agent's answer and posts nothing. */
  lemma DryRunPostsNothing(table: seq<Routine>, name: string, stamp: string, agent: string -> Result<string>)
    ensures var r := RunRoutine(table, name, true, stamp, agent);
            r.post.None?
            && (r.prompt.Some? && agent(r.prompt.value).Ok? ==> r.result == agent(r.prompt.value))
  {
  }

  /**
   * A run posts exactly when it is not a dry run, the routine is enabled,
   * the agent answers and the routine has a non-empty channel; the post goes
   * to the mapped channel and carries the answer.
   */
  lemma PostsIff(table: seq<Routine>, name: string, dryRun: bool, stamp: string, agent: string -> Result<string>)
    ensures var r := RunRoutine(table, name, dryRun, stamp, agent);
            r.post.Some? <==>
              !dryRun && r.prompt.Some? && agent(r.prompt.value).Ok?
              && Find(table, name).value.channel.Some? && Find(table, name).value.channel.value != ""
    ensures var r := RunRoutine(table, name, dryRun, stamp, agent);
            r.post.Some? ==> r.post.value == Post(MapChannel(Find(table, name).value.channel.value), agent(r.prompt.value).value)
  {
  }

  /** `team-jpa` maps to `general`, and no other name is renamed. */
  lemma MapChannelRenamesOnlyTeamJpa(channel: string)
    ensures MapChannel(channel) != channel <==> channel == "team-jpa"
    ensures channel == "team-jpa" ==> MapChannel(channel) == "general"
  {
  }

  /** Every shipped routine that gets an answer in a real run posts it to `general`, whatever its prompt text. */
  lemma ShippedPostsToGeneral(p: Prompts, k: nat, stamp: string, agent: string -> Result<string>)
    requires k < |Table(p)|
    ensures var r := RunRoutine(Table(p), Table(p)[k].name, false, stamp, agent);
            r.prompt == Some(TimeContext(stamp) + Table(p)[k].prompt)
            && (agent(r.prompt.value).Ok? ==> r.post == Some(Post("general", agent(r.prompt.value).value)))
  {
    GetShipped(p, k);
    ShippedRoutines(p);
  }
}
