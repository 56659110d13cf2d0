/**
 * The Discord bot's decisions: which messages it answers, how an answer is
 * cut into Discord messages, what `!run` replies, and the once-a-minute
 * routine check over the module-level `last_run` dictionary.
 *
 * Discord itself is described by values: the author flags, whether the bot
 * is mentioned, whether the channel is a DM and its name, the bot's user id,
 * and the streamed agent answer (`Err` when the agent raises).
 */
module Bot {
  import opened Optional
  import opened Text
  import opened Routines
  import Scheduler
  import Runner

  /** Something the bot does in the channel: send a new message or edit the placeholder. */
  datatype Action = Send(text: string) | Edit(text: string)

  const Thinking: string := "_thinking..._"

  /**
   * The answer branch of `run_agent_and_respond`: the placeholder is edited
   * to the first 2000 characters, and the `while remaining` loop sends the
   * rest in pieces of 2000 as it cuts them.
   */
  method ChunkReply(full: string) returns (actions: seq<Action>)
    ensures var msgs := Runner.Messages(full);
            |actions| == |msgs| && actions[0] == Edit(msgs[0])
            && forall k :: 1 <= k < |actions| ==> actions[k] == Send(msgs[k])
  {
    if |full| <= Runner.Limit {
      actions := [Edit(full)];
      return;
    }
    var edit := full[..Runner.Limit];
    actions := [Edit(edit)];
    var remaining := full[Runner.Limit..];
    ghost var sent: seq<string> := [];
    ghost var tail := Runner.Slices(remaining, Runner.Limit);
    while remaining != []
      invariant actions == [Edit(edit)] + SendEach(sent)
      invariant sent + Runner.Slices(remaining, Runner.Limit) == tail
      decreases |remaining|
    {
      var chunk := Take(remaining, Runner.Limit);
      CutStep(sent, remaining);
      SendEachAppend(sent, chunk);
      remaining := remaining[|chunk|..];
      actions := actions + [Send(chunk)];
      sent := sent + [chunk];
    }
    Runner.SlicesStep(full, Runner.Limit);
    assert Take(full, Runner.Limit) == edit;
    assert Runner.Messages(full) == [edit] + sent;
    EditThenSends(edit, sent);
  }

  /** An edit followed by one send per piece follows `[edit] + pieces` one for one. */
  lemma EditThenSends(edit: string, pieces: seq<string>)
    ensures var actions, msgs := [Edit(edit)] + SendEach(pieces), [edit] + pieces;
            |actions| == |msgs| && actions[0] == Edit(msgs[0])
            && forall k :: 1 <= k < |actions| ==> actions[k] == Send(msgs[k])
  {
    var actions, msgs := [Edit(edit)] + SendEach(pieces), [edit] + pieces;
    forall k | 1 <= k < |actions| ensures actions[k] == Send(msgs[k]) {
      assert actions[k] == SendEach(pieces)[k - 1];
    }
  }

  /** One send per piece, in order. */
  function SendEach(pieces: seq<string>): (r: seq<Action>)
    ensures |r| == |pieces| && forall k :: 0 <= k < |r| ==> r[k] == Send(pieces[k])
  {
    seq(|pieces|, k requires 0 <= k < |pieces| => Send(pieces[k]))
  }

  lemma SendEachAppend(pieces: seq<string>, p: string)
    ensures SendEach(pieces + [p]) == SendEach(pieces) + [Send(p)]
  {
  }

  /** Cutting the first piece off `remaining` moves it from the slices still to cut to those already sent. */
  lemma CutStep(sent: seq<string>, remaining: string)
    requires remaining != []
    ensures var chunk := Take(remaining, Runner.Limit);
            (sent + [chunk]) + Runner.Slices(remaining[|chunk|..], Runner.Limit)
            == sent + Runner.Slices(remaining, Runner.Limit)
  {
    var chunk := Take(remaining, Runner.Limit);
    Runner.SlicesStep(remaining, Runner.Limit);
    var later := Runner.Slices(remaining[|chunk|..], Runner.Limit);
    assert sent + ([chunk] + later) == (sent + [chunk]) + later;
  }

  /** Reading the placeholder edit and the sends off the messages `post_to_discord` would send. */
  lemma ReplyShape(full: string, edit: string, sends: seq<string>)
    requires [edit] + sends == Runner.Messages(full)
    ensures edit + Concat(sends) == full
    ensures |edit| <= Runner.Limit && forall k :: 0 <= k < |sends| ==> 0 < |sends[k]| <= Runner.Limit
    ensures |full| <= Runner.Limit ==> edit == full && sends == []
    ensures |full| > Runner.Limit ==> |edit| == Runner.Limit
                                       && forall k :: 0 <= k < |sends| - 1 ==> |sends[k]| == Runner.Limit
  {
    var msgs := Runner.Messages(full);
    assert msgs[1..] == sends;
    assert forall k :: 0 <= k < |sends| ==> sends[k] == msgs[k + 1];
    if |full| > Runner.Limit {
      assert msgs == Runner.Slices(full, Runner.Limit);
    }
  }

  /**
   * `run_agent_and_respond`: post the placeholder, then either the chunked
   * answer or the apology carrying the agent's error.
   */
  method RespondWithAgent(answer: Result<string>) returns (actions: seq<Action>)
    ensures |actions| >= 2 && actions[0] == Send(Thinking)
    ensures answer.Err? ==> actions == [Send(Thinking), Send("Sorry, I encountered an error: " + answer.message)]
    ensures answer.Ok? ==>
              var msgs := Runner.Messages(answer.value);
              |actions| == |msgs| + 1 && actions[1] == Edit(msgs[0])
              && forall k :: 2 <= k < |actions| ==> actions[k] == Send(msgs[k - 1])
  {
    match answer
    case Err(e) =>
      actions := [Send(Thinking), Send("Sorry, I encountered an error: " + e)];
    case Ok(full) =>
      var reply := ChunkReply(full);
      actions := [Send(Thinking)] + reply;
  }

  /** What `on_message` does about a message's text. */
  datatype Reply = NoReply | HowCanIHelp | RunAgent(prompt: string)

  /** The reply and whether the message is then handed to the command processor. */
  datatype Handling = Handling(reply: Reply, processCommands: bool)

  /** The message as `on_message` sees it. */
  datatype Incoming = Incoming(fromSelf: bool, fromBot: bool, mentioned: bool, isDm: bool,
                               channelName: Option<string>, content: string)

  /** Whether the bot considers itself addressed: mentioned, in a DM, or in `general`/`team-jpa`. */
  predicate Addressed(m: Incoming)
  {
    m.mentioned || m.isDm || (m.channelName.Some? && m.channelName.value in ["general", "team-jpa"])
  }

  /** The text left once every mention of the bot is removed and whitespace stripped. */
  function Cleaned(m: Incoming, botId: string): string
  {
    Strip(ReplaceAll(m.content, "<@" + botId + ">", ""))
  }

  /** `on_message`. */
  function OnMessage(m: Incoming, botId: string): (h: Handling)
    ensures h.reply.RunAgent? ==> h.reply.prompt != [] && !IsSpace(h.reply.prompt[0])
                                  && !IsSpace(h.reply.prompt[|h.reply.prompt| - 1])
  {
    if m.fromSelf || m.fromBot then Handling(NoReply, false)
    else if Addressed(m) then
      var content := Cleaned(m, botId);
      if content == "" then Handling(HowCanIHelp, false)
      else Handling(RunAgent(content), true)
    else Handling(NoReply, true)
  }

  /** Messages from the bot itself or any other bot get no reply and no command processing. */
  lemma BotsIgnored(m: Incoming, botId: string)
    requires m.fromSelf || m.fromBot
    ensures OnMessage(m, botId) == Handling(NoReply, false)
  {
  }

  /** The agent runs exactly for a human message that addresses the bot and says something beyond the mention. */
  lemma AgentRunsIff(m: Incoming, botId: string)
    ensures OnMessage(m, botId).reply.RunAgent? <==>
              !m.fromSelf && !m.fromBot && Addressed(m) && Cleaned(m, botId) != ""
    ensures OnMessage(m, botId).reply.RunAgent? ==> OnMessage(m, botId).reply.prompt == Cleaned(m, botId)
  {
  }

  /** An addressed message that is empty after cleaning gets "How can I help?" and skips the command processor. */
  lemma EmptyMentionAsksHow(m: Incoming, botId: string)
    ensures OnMessage(m, botId).reply == HowCanIHelp <==>
              !m.fromSelf && !m.fromBot && Addressed(m) && Cleaned(m, botId) == ""
    ensures OnMessage(m, botId).reply == HowCanIHelp ==> !OnMessage(m, botId).processCommands
  {
  }

  /** Commands are processed for every human message except an empty mention. */
  lemma CommandsProcessedIff(m: Incoming, botId: string)
    ensures OnMessage(m, botId).processCommands <==>
              !m.fromSelf && !m.fromBot && OnMessage(m, botId).reply != HowCanIHelp
  {
  }

  /** The text "How can I help?" the bot sends for an empty mention. */
  const HowCanIHelpText: string := "How can I help?"

  /** The two messages of `!run name`: the announcement, then the completion or the error. */
  function RunNow(table: seq<Routine>, name: string, stamp: string, agent: string -> Result<string>): (r: seq<string>)
    ensures |r| == 2 && r[0] == "Running `" + name + "`..."
  {
    var run := Runner.RunRoutine(table, name, false, stamp, agent);
    ["Running `" + name + "`...",
     match run.result
     case Ok(_) => "\U{2713} `" + name + "` completed"
     case Err(e) => "\U{2717} Error: " + e]
  }

  /** `!run` of a disabled routine reports completion without prompting the agent. */
  lemma RunNowDisabled(table: seq<Routine>, name: string, stamp: string, agent: string -> Result<string>)
    requires Find(table, name).Some? && !Find(table, name).value.enabled
    ensures RunNow(table, name, stamp, agent)[1] == "\U{2713} `" + name + "` completed"
    ensures Runner.RunRoutine(table, name, false, stamp, agent).prompt.None?
  {
  }

  /** `!run` reports an error exactly when the routine is unknown or the agent raises. */
  lemma RunNowErrorIff(table: seq<Routine>, name: string, stamp: string, agent: string -> Result<string>)
    ensures var run := Runner.RunRoutine(table, name, false, stamp, agent);
            RunNow(table, name, stamp, agent)[1][0] == '\U{2717}' <==>
              Find(table, name).None? || (run.prompt.Some? && agent(run.prompt.value).Err?)
  {
  }

  /**
   * `scheduler_check`: the same tick as the scheduler daemon, over
   * `ROUTINES` and the module-level `last_run` held by `ledger`. The
   * routine table is `Table(prompts)`; the program's is `Table(ShippedPrompts)`.
   */
  method SchedulerCheck(ledger: Scheduler.MinuteLedger, prompts: Prompts, minute: string, due: Scheduler.Cron)
    modifies ledger
    ensures |ledger.fired| >= |old(ledger.fired)| && ledger.fired[..|old(ledger.fired)|] == old(ledger.fired)
    ensures (ledger.lastRun, ledger.fired[|old(ledger.fired)|..])
            == Scheduler.TickOver(Table(prompts), minute, due, old(ledger.lastRun))
  {
    ledger.Tick(Table(prompts), minute, due);
  }
}
