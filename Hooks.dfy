/**
 * The agent's tool hooks: two that auto-approve (read-only tools, writes
 * under the safe directories), one that blocks dangerous shell commands,
 * and two that only log.
 *
 * A hook's input dictionary is a record whose absent keys read as "" (every
 * comparison the hooks make treats a missing key like an empty string), and
 * its output dictionary is `Empty` (`{}`) or a permission decision.
 */
module Hooks {
  import opened Optional
  import opened Text

  /** The keys of the hook input the hooks read; "" where the key is absent. */
  datatype HookInput = HookInput(event: string, toolName: string, filePath: string, command: string)

  datatype Decision = Allow | Deny

  /** `{}`, or `hookSpecificOutput` with the decision and its reason, plus an optional `systemMessage`. */
  datatype HookOutput =
    | Empty
    | Permission(eventName: string, decision: Decision, reason: string, systemMessage: Option<string>)

  const PreToolUse: string := "PreToolUse"

  const ReadOnlyTools: seq<string> := ["Read", "Glob", "Grep", "WebFetch", "WebSearch"]

  /** `SAFE_WRITE_DIRS`. */
  const SafeWriteDirs: seq<string> := ["/Users/jpa/jpa-os/vault", "/Users/jpa/Documents/self", "/Users/jpa/Documents/dev"]

  /** `DANGEROUS_PATTERNS`. */
  const DangerousPatterns: seq<string> := [
    "rm -rf /", "rm -rf ~", "rm -rf /*", "> /dev/sda", "mkfs.", ":(){:|:&};:",
    "chmod -R 777 /", "dd if=/dev/zero of=/dev/sda"]

  const BlockedMessage: string := "This command has been blocked for safety. Please use a safer alternative."

  /** The first entry of `xs` that `p` accepts, scanning in order. */
  function FirstMatch(xs: seq<string>, p: string -> bool): (r: Option<string>)
    ensures r.None? <==> forall i :: 0 <= i < |xs| ==> !p(xs[i])
    ensures r.Some? ==> exists i :: 0 <= i < |xs| && xs[i] == r.value && p(r.value)
                                   && forall j :: 0 <= j < i ==> !p(xs[j])
    decreases |xs|
  {
    if xs == [] then None
    else if p(xs[0]) then Some(xs[0])
    else
      var r := FirstMatch(xs[1..], p);
      if r.Some? then
        ghost var i :| 0 <= i < |xs[1..]| && xs[1..][i] == r.value && p(r.value)
                       && forall j :: 0 <= j < i ==> !p(xs[1..][j]);
        assert xs[i + 1] == r.value;
        assert forall j :: 0 < j < i + 1 ==> xs[j] == xs[1..][j - 1];
        r
      else r
  }

  /** `auto_approve_reads`. */
  function AutoApproveReads(input: HookInput): (r: HookOutput)
    ensures r.Permission? ==> r.decision == Allow && r.systemMessage.None? && r.eventName == PreToolUse
  {
    if input.event != PreToolUse then Empty
    else if input.toolName in ReadOnlyTools then
      Permission(input.event, Allow, "Read-only operation auto-approved", None)
    else Empty
  }

  /** `auto_approve_safe_writes`: the reason names the first safe directory that prefixes the path. */
  function AutoApproveSafeWrites(input: HookInput): (r: HookOutput)
    ensures r.Permission? ==> r.decision == Allow && r.systemMessage.None? && r.eventName == PreToolUse
  {
    if input.event != PreToolUse then Empty
    else if input.toolName !in ["Write", "Edit"] then Empty
    else
      match FirstMatch(SafeWriteDirs, d => StartsWith(input.filePath, d))
      case Some(dir) => Permission(input.event, Allow, "Write to safe directory auto-approved: " + dir, None)
      case None => Empty
  }

  /** `block_dangerous_commands`: the reason names the first dangerous pattern found in the command. */
  function BlockDangerousCommands(input: HookInput): (r: HookOutput)
    ensures r.Permission? ==> r.decision == Deny && r.systemMessage == Some(BlockedMessage) && r.eventName == PreToolUse
  {
    if input.event != PreToolUse then Empty
    else if input.toolName != "Bash" then Empty
    else
      match FirstMatch(DangerousPatterns, p => Contains(input.command, p))
      case Some(pattern) =>
        Permission(input.event, Deny, "Dangerous command blocked: contains \"" + pattern + "\"", Some(BlockedMessage))
      case None => Empty
  }

  /** The three permission hooks do nothing outside `PreToolUse`. */
  lemma PermissionHooksOnlyPreToolUse(input: HookInput)
    requires input.event != PreToolUse
    ensures AutoApproveReads(input) == Empty
    ensures AutoApproveSafeWrites(input) == Empty
    ensures BlockDangerousCommands(input) == Empty
  {
  }

  /** Reads are approved exactly for the five read-only tools. */
  lemma ReadsApprovedIff(input: HookInput)
    ensures AutoApproveReads(input).Permission? <==>
              input.event == PreToolUse
              && (input.toolName == "Read" || input.toolName == "Glob" || input.toolName == "Grep"
                  || input.toolName == "WebFetch" || input.toolName == "WebSearch")
  {
  }

  /** A write is approved exactly when it is a Write or Edit and some safe directory is a string prefix of the path. */
  lemma WritesApprovedIff(input: HookInput)
    ensures AutoApproveSafeWrites(input).Permission? <==>
              input.event == PreToolUse && (input.toolName == "Write" || input.toolName == "Edit")
              && exists i :: 0 <= i < |SafeWriteDirs| && StartsWith(input.filePath, SafeWriteDirs[i])
  {
  }

  /**
   * The safe-directory test is a plain string prefix with no separator
   * check: any path that merely starts with a safe directory's name, such as
   * a sibling `/Users/jpa/Documents/devious/...`, is approved.
   */
  lemma PrefixWithoutSeparatorApproved(k: nat, suffix: string, tool: string)
    requires k < |SafeWriteDirs| && (tool == "Write" || tool == "Edit")
    ensures AutoApproveSafeWrites(HookInput(PreToolUse, tool, SafeWriteDirs[k] + suffix, "")).Permission?
  {
    var path := SafeWriteDirs[k] + suffix;
    assert StartsWith(path, SafeWriteDirs[k]);
  }

  /** A command is blocked exactly when it is a Bash command containing some dangerous pattern. */
  lemma CommandsBlockedIff(input: HookInput)
    ensures BlockDangerousCommands(input).Permission? <==>
              input.event == PreToolUse && input.toolName == "Bash"
              && exists i :: 0 <= i < |DangerousPatterns| && Contains(input.command, DangerousPatterns[i])
  {
  }

  /** A block's reason names the first dangerous pattern, in list order, that the command contains. */
  lemma BlockNamesFirstPattern(input: HookInput)
    requires BlockDangerousCommands(input).Permission?
    ensures exists i :: 0 <= i < |DangerousPatterns| && Contains(input.command, DangerousPatterns[i])
                        && (forall j :: 0 <= j < i ==> !Contains(input.command, DangerousPatterns[j]))
                        && BlockDangerousCommands(input).reason
                           == "Dangerous command blocked: contains \"" + DangerousPatterns[i] + "\""
  {
  }

  /** An approved write's reason names the first safe directory, in list order, that prefixes the path. */
  lemma WriteNamesFirstDirectory(input: HookInput)
    requires AutoApproveSafeWrites(input).Permission?
    ensures exists i :: 0 <= i < |SafeWriteDirs| && StartsWith(input.filePath, SafeWriteDirs[i])
                        && (forall j :: 0 <= j < i ==> !StartsWith(input.filePath, SafeWriteDirs[j]))
                        && AutoApproveSafeWrites(input).reason
                           == "Write to safe directory auto-approved: " + SafeWriteDirs[i]
  {
  }

  /** The approving hooks never deny and the blocking hook never allows. */
  lemma DecisionsOneSided(input: HookInput)
    ensures AutoApproveReads(input) == Empty || AutoApproveReads(input).decision == Allow
    ensures AutoApproveSafeWrites(input) == Empty || AutoApproveSafeWrites(input).decision == Allow
    ensures BlockDangerousCommands(input) == Empty || BlockDangerousCommands(input).decision == Deny
  {
  }

  /**
   * Substring matching also blocks harmless commands that merely contain a
   * dangerous pattern, such as `rm -rf /tmp/build` containing `rm -rf /`.
   */
  lemma ContainingPatternBlocked(before: string, after: string, k: nat)
    requires k < |DangerousPatterns|
    ensures BlockDangerousCommands(HookInput(PreToolUse, "Bash", "", before + DangerousPatterns[k] + after)).Permission?
  {
    var cmd := before + DangerousPatterns[k] + after;
    assert cmd[|before|..] == DangerousPatterns[k] + after;
    assert StartsWith(cmd[|before|..], DangerousPatterns[k]);
  }

  /** `_truncate(s, max_len)`. */
  function Truncate(s: string, maxLen: nat): (r: string)
    ensures |s| <= maxLen ==> r == s
    ensures |s| > maxLen ==> |r| == maxLen + 3 && EndsWith(r, "...")
  {
    if |s| <= maxLen then s else s[..maxLen] + "..."
  }

  /** A truncation keeps the start of the text and is never longer than the limit plus the ellipsis. */
  lemma TruncateKeepsStart(s: string, maxLen: nat)
    ensures |Truncate(s, maxLen)| <= maxLen + 3
    ensures StartsWith(Truncate(s, maxLen), Take(s, maxLen))
  {
  }

  /** What a logging hook returns and the line it logs, if any. */
  datatype Logged = Logged(output: HookOutput, line: Option<string>)

  /**
   * `log_tool_use`: the tool name ("unknown" when absent), and the textual
   * forms of the tool's input and response; `stamp` is the ISO timestamp.
   */
  function LogToolUse(event: string, toolName: Option<string>, inputText: string, responseText: string, stamp: string)
    : (r: Logged)
    ensures r.output == Empty
    ensures r.line.Some? <==> event == PreToolUse || event == "PostToolUse"
  {
    var name := toolName.GetOr("unknown");
    if event == PreToolUse then
      Logged(Empty, Some("[" + stamp + "] TOOL START: " + name + " | Input: " + Truncate(inputText, 200)))
    else if event == "PostToolUse" then
      Logged(Empty, Some("[" + stamp + "] TOOL END: " + name + " | Response: " + Truncate(responseText, 200)))
    else Logged(Empty, None)
  }

  /** `track_progress`: `toolUseId` and `stopHookActive` are the printed forms of those values. */
  function TrackProgress(event: string, toolUseId: string, stopHookActive: string, stamp: string): (r: Logged)
    ensures r.output == Empty
    ensures r.line.Some? <==> event == "SubagentStop" || event == "Stop"
  {
    if event == "SubagentStop" then
      Logged(Empty, Some("[" + stamp + "] SUBAGENT COMPLETED | tool_use_id: " + toolUseId))
    else if event == "Stop" then
      Logged(Empty, Some("[" + stamp + "] AGENT STOP | stop_hook_active: " + stopHookActive))
    else Logged(Empty, None)
  }

  /** The logged tool input or response is cut to 200 characters plus the ellipsis. */
  lemma ToolLogBounded(event: string, toolName: Option<string>, inputText: string, responseText: string, stamp: string)
    requires event == PreToolUse
    ensures var line := LogToolUse(event, toolName, inputText, responseText, stamp).line.value;
            EndsWith(line, Truncate(inputText, 200)) && |Truncate(inputText, 200)| <= 203
  {
  }
}
