/** Hook event -> record transitions (daemon/state_machine.py). */
module StateMachine {
  import opened Schema
  import opened SeqLemmas

  datatype EventKind =
    | SessionStart | UserPromptSubmit | PreToolUse | PostToolUse | PostToolUseFailure | PermissionRequest
    | Stop | StopFailure | SubagentStart | SubagentStop | SessionEnd | Unhandled

  /** A hook event, with its name already resolved by KindOf. */
  datatype HookEvent = HookEvent(
    sessionId: string, kind: EventKind, cwd: string, toolName: Option<string>, agentType: Option<string>)

  datatype Op = OpUpsert | OpRemove | OpNoop

  function KindOf(name: string): EventKind {
    if name == "SessionStart" then SessionStart
    else if name == "UserPromptSubmit" then UserPromptSubmit
    else if name == "PreToolUse" then PreToolUse
    else if name == "PostToolUse" then PostToolUse
    else if name == "PostToolUseFailure" then PostToolUseFailure
    else if name == "PermissionRequest" then PermissionRequest
    else if name == "Stop" then Stop
    else if name == "StopFailure" then StopFailure
    else if name == "SubagentStart" then SubagentStart
    else if name == "SubagentStop" then SubagentStop
    else if name == "SessionEnd" then SessionEnd
    else Unhandled
  }

  function ToolLabels(): map<string, string> {
    map["Bash" := "Bash Execution", "Read" := "Reading File", "Write" := "Editing File", "Edit" := "Editing File",
        "Grep" := "Searching", "Glob" := "Searching", "WebFetch" := "Web Research", "WebSearch" := "Web Research",
        "Task" := "Delegating to subagent"]
  }

  /** A missing name and an empty one are both falsy in the source. */
  function OrElse(s: Option<string>, default: string): string {
    if s.None? || s.value == "" then default else s.value
  }

  function LabelForTool(toolName: Option<string>): string {
    if OrElse(toolName, "") == "" then "Working"
    else if toolName.value in ToolLabels() then ToolLabels()[toolName.value]
    else "Using " + toolName.value
  }

  // ---- project names ----

  function StripSlashes(s: string): string {
    if s != "" && s[|s| - 1] == '/' then StripSlashes(s[..|s| - 1]) else s
  }

  function Basename(s: string): string {
    if s == "" || s[|s| - 1] == '/' then "" else Basename(s[..|s| - 1]) + [s[|s| - 1]]
  }

  function ProjectNameFromCwd(cwd: string): string {
    if cwd == "" then "unknown"
    else if Basename(StripSlashes(cwd)) == "" then cwd
    else Basename(StripSlashes(cwd))
  }

  lemma {:induction false} StripSlashesSplits(s: string)
    ensures StripSlashes(s) <= s
    ensures forall i :: |StripSlashes(s)| <= i < |s| ==> s[i] == '/'
    ensures StripSlashes(s) != "" ==> StripSlashes(s)[|StripSlashes(s)| - 1] != '/'
  {
    if s != "" && s[|s| - 1] == '/' { StripSlashesSplits(s[..|s| - 1]); }
  }

  lemma {:induction false} BasenameIsLastComponent(s: string) returns (dir: string)
    ensures s == dir + Basename(s) && '/' !in Basename(s)
    ensures dir == "" || dir[|dir| - 1] == '/'
  {
    if s == "" || s[|s| - 1] == '/' {
      dir := s;
      assert s == s + "";
    } else {
      var p, last := s[..|s| - 1], [s[|s| - 1]];
      dir := BasenameIsLastComponent(p);
      assert s == p + last;
      ConcatAssoc(dir, Basename(p), last);
    }
  }

  /** The project name of a path is its last slash-free component, trailing slashes ignored. */
  lemma ProjectNameIsLastComponent(cwd: string) returns (dir: string, tail: string)
    requires exists i :: 0 <= i < |cwd| && cwd[i] != '/'
    ensures cwd == dir + ProjectNameFromCwd(cwd) + tail
    ensures ProjectNameFromCwd(cwd) != "" && '/' !in ProjectNameFromCwd(cwd)
    ensures dir == "" || dir[|dir| - 1] == '/'
    ensures forall i :: 0 <= i < |tail| ==> tail[i] == '/'
  {
    var s := StripSlashes(cwd);
    NonSlashSurvives(cwd);
    dir := BasenameIsLastComponent(s);
    tail := TrailingSlashes(cwd);
  }

  lemma TrailingSlashes(cwd: string) returns (tail: string)
    ensures cwd == StripSlashes(cwd) + tail
    ensures forall i :: 0 <= i < |tail| ==> tail[i] == '/'
  {
    StripSlashesSplits(cwd);
    tail := cwd[|StripSlashes(cwd)|..];
  }

  lemma NonSlashSurvives(cwd: string)
    requires exists i :: 0 <= i < |cwd| && cwd[i] != '/'
    ensures StripSlashes(cwd) != "" && Basename(StripSlashes(cwd)) != ""
    ensures ProjectNameFromCwd(cwd) == Basename(StripSlashes(cwd))
  {
    StripSlashesSplits(cwd);
  }

  /** Root-only and empty paths still get a non-empty name. */
  lemma ProjectNameOfBarePath(cwd: string)
    requires forall i :: 0 <= i < |cwd| ==> cwd[i] == '/'
    ensures ProjectNameFromCwd(cwd) == if cwd == "" then "unknown" else cwd
  {
    StripSlashesSplits(cwd);
  }

  // ---- the transition ----

  function NewRecord(e: HookEvent, now: int): Record {
    Record(e.sessionId, ProjectNameFromCwd(e.cwd), e.cwd, None, "unknown", Idle, "Idle", now, [])
  }

  function Touch(r: Record, e: HookEvent): Record {
    if e.cwd != "" then r.(cwd := e.cwd) else r
  }

  function SetStatus(r: Record, state: AgentState, text: string, now: int): Record {
    r.(state := state, actionLabel := text, stateSince := now)
  }

  /** The value a record object holds once an event has been applied to it. A SessionEnd still
      refreshes the cwd of the object it detaches, which a diff not yet serialised will see. */
  function Step(r: Record, e: HookEvent, now: int): Record {
    Transition(Touch(r, e), e, now)
  }

  function Transition(r: Record, e: HookEvent, now: int): Record {
    match e.kind
    case SessionStart => SetStatus(r, Idle, "Idle", now)
    case UserPromptSubmit => SetStatus(r, Working, "Processing prompt", now)
    case PreToolUse => SetStatus(r, Working, LabelForTool(e.toolName), now)
    case PostToolUse => if r.state != Working then SetStatus(r, Working, r.actionLabel, now) else r
    case PostToolUseFailure => SetStatus(r, Error, "Tool error: " + OrElse(e.toolName, "unknown"), now)
    case PermissionRequest => SetStatus(r, Asking, "Awaiting approval: " + OrElse(e.toolName, "tool"), now)
    case Stop => SetStatus(r, Idle, "Idle", now)
    case StopFailure => SetStatus(r, Error, "Session error (API failure)", now)
    case SubagentStart =>
      SetStatus(r, Working, "Working: subagent (" + OrElse(e.agentType, "agent") + ")", now)
      .(labelStack := r.labelStack + [r.actionLabel])
    case SubagentStop =>
      if r.labelStack == [] then SetStatus(r, r.state, "Working", now)
      else SetStatus(r, r.state, r.labelStack[|r.labelStack| - 1], now)
           .(labelStack := r.labelStack[..|r.labelStack| - 1])
    case SessionEnd => r
    case Unhandled => r
  }

  function OpFor(known: bool, e: HookEvent): Op {
    match e.kind
    case SessionEnd => OpRemove
    case Unhandled => if known then OpNoop else OpUpsert
    case _ => OpUpsert
  }

  method ApplyEvent(record: AgentRecord?, event: HookEvent, now: int) returns (result: AgentRecord?, op: Op)
    modifies record
    ensures op == OpFor(record != null, event)
    ensures result == null <==> event.kind == SessionEnd
    ensures op == OpNoop <==> event.kind == Unhandled && record != null
    ensures record != null ==> record.Value() == Step(old(record.Value()), event, now)
    ensures op == OpRemove <==> result == null
    ensures record != null ==> record.sessionId == old(record.sessionId)
    ensures result != null && record == null ==> result.sessionId == event.sessionId
    ensures result != null && record != null ==> result == record
    ensures result != null && record == null ==>
              fresh(result) && result.Value() == Step(NewRecord(event, now), event, now)
  {
    var isNew := record == null;
    var r: AgentRecord;
    if record == null {
      r := new AgentRecord(NewRecord(event, now));
    } else {
      r := record;
      if event.cwd != "" { r.cwd := event.cwd; }
    }
    op := ApplyTransition(r, event, now, isNew);
    result := if op == OpRemove then null else r;
  }

  /** The branches on the event name. */
  method ApplyTransition(r: AgentRecord, event: HookEvent, now: int, isNew: bool) returns (op: Op)
    modifies r
    ensures op == OpFor(!isNew, event)
    ensures op == OpRemove <==> event.kind == SessionEnd
    ensures op == OpNoop <==> event.kind == Unhandled && !isNew
    ensures r.Value() == Transition(old(r.Value()), event, now) && r.sessionId == old(r.sessionId)
  {
    op := OpUpsert;
    match event.kind {
      case SessionStart =>
        r.state, r.actionLabel, r.stateSince := Idle, "Idle", now;
      case UserPromptSubmit =>
        r.state, r.actionLabel, r.stateSince := Working, "Processing prompt", now;
      case PreToolUse =>
        r.state, r.actionLabel, r.stateSince := Working, LabelForTool(event.toolName), now;
      case PostToolUse =>
        if r.state != Working {
          r.state, r.stateSince := Working, now;
        }
      case PostToolUseFailure =>
        r.state, r.actionLabel, r.stateSince := Error, "Tool error: " + OrElse(event.toolName, "unknown"), now;
      case PermissionRequest =>
        r.state, r.actionLabel, r.stateSince := Asking, "Awaiting approval: " + OrElse(event.toolName, "tool"), now;
      case Stop =>
        r.state, r.actionLabel, r.stateSince := Idle, "Idle", now;
      case StopFailure =>
        r.state, r.actionLabel, r.stateSince := Error, "Session error (API failure)", now;
      case SubagentStart =>
        r.labelStack := r.labelStack + [r.actionLabel];
        r.state, r.stateSince := Working, now;
        r.actionLabel := "Working: subagent (" + OrElse(event.agentType, "agent") + ")";
      case SubagentStop =>
        if r.labelStack == [] {
          r.actionLabel := "Working";
        } else {
          r.actionLabel := r.labelStack[|r.labelStack| - 1];
          r.labelStack := r.labelStack[..|r.labelStack| - 1];
        }
        r.stateSince := now;
      case SessionEnd =>
        return OpRemove;
      case Unhandled =>
        op := if isNew then OpUpsert else OpNoop;
    }
  }

  /** A SessionEnd removes, an unhandled event is a no-op for a known session, all else is an upsert. */
  lemma OpByKind(known: bool, e: HookEvent)
    ensures OpFor(known, e) == OpRemove <==> e.kind == SessionEnd
    ensures OpFor(known, e) == OpNoop <==> e.kind == Unhandled && known
  {
  }

  lemma StepKeepsIdentity(r: Record, e: HookEvent, now: int)
    ensures var r' := Step(r, e, now);
            && r'.sessionId == r.sessionId && r'.pid == r.pid
            && r'.entrypoint == r.entrypoint && r'.projectName == r.projectName
  {
  }

  /** The record a session's first event leaves, field by field. */
  lemma FirstEventByFields(e: HookEvent, now: int)
    ensures var r := Step(NewRecord(e, now), e, now);
            && r.sessionId == e.sessionId && r.cwd == e.cwd && r.projectName == ProjectNameFromCwd(e.cwd)
            && r.pid == None && r.entrypoint == "unknown" && r.stateSince == now
            && r.labelStack == (if e.kind == SubagentStart then ["Idle"] else [])
            && (e.kind == Unhandled ==> r.state == Idle && r.actionLabel == "Idle")
  {
    StepKeepsIdentity(NewRecord(e, now), e, now);
    StackOfStep(NewRecord(e, now), e, now);
    ClockOfStep(NewRecord(e, now), e, now);
    assert [] + ["Idle"] == ["Idle"];
  }

  lemma KindsByName()
    ensures KindOf("SessionStart") == SessionStart && KindOf("UserPromptSubmit") == UserPromptSubmit
    ensures KindOf("PreToolUse") == PreToolUse && KindOf("PostToolUse") == PostToolUse
    ensures KindOf("PostToolUseFailure") == PostToolUseFailure && KindOf("PermissionRequest") == PermissionRequest
    ensures KindOf("Stop") == Stop && KindOf("StopFailure") == StopFailure
    ensures KindOf("SubagentStart") == SubagentStart && KindOf("SubagentStop") == SubagentStop
    ensures KindOf("SessionEnd") == SessionEnd
  {
  }

  lemma ToolLabelsByName(tool: string)
    ensures LabelForTool(None) == "Working" && LabelForTool(Some("")) == "Working"
    ensures LabelForTool(Some("Bash")) == "Bash Execution" && LabelForTool(Some("Read")) == "Reading File"
    ensures LabelForTool(Some("Write")) == LabelForTool(Some("Edit")) == "Editing File"
    ensures LabelForTool(Some("Grep")) == LabelForTool(Some("Glob")) == "Searching"
    ensures LabelForTool(Some("WebFetch")) == LabelForTool(Some("WebSearch")) == "Web Research"
    ensures LabelForTool(Some("Task")) == "Delegating to subagent"
    ensures tool !in ["", "Bash", "Read", "Write", "Edit", "Grep", "Glob", "WebFetch", "WebSearch", "Task"] ==>
              LabelForTool(Some(tool)) == "Using " + tool
  {
  }

  /** An event that schedules no diff leaves everything a diff publishes unchanged. */
  lemma NoopIsSilent(r: Record, e: HookEvent, now: int)
    requires OpFor(true, e) == OpNoop
    ensures Step(r, e, now).Shown() == r.Shown() && Step(r, e, now).labelStack == r.labelStack
    ensures Step(r, e, now) == r.(cwd := if e.cwd != "" then e.cwd else r.cwd)
  {
  }

  /** The installer subscribes to exactly the events the state machine acts on. */
  lemma HandledEventsAreInstalled(name: string)
    ensures KindOf(name) != Unhandled <==> name in TargetHookEvents()
  {
    var t := TargetHookEvents();
    assert t[0] == "SessionStart" && t[1] == "SessionEnd" && t[2] == "UserPromptSubmit" && t[3] == "PreToolUse"
        && t[4] == "PostToolUse" && t[5] == "PostToolUseFailure" && t[6] == "PermissionRequest" && t[7] == "Stop"
        && t[8] == "StopFailure" && t[9] == "SubagentStart" && t[10] == "SubagentStop";
  }

  // ---- whole runs of one record ----

  /** An event with the clock reading it was applied at. */
  datatype Stamped = Stamped(event: HookEvent, now: int)

  function Run(r: Record, es: seq<Stamped>): Record {
    if es == [] then r
    else Step(Run(r, es[..|es| - 1]), es[|es| - 1].event, es[|es| - 1].now)
  }

  lemma {:induction false} RunConcat(r: Record, a: seq<Stamped>, b: seq<Stamped>)
    ensures Run(r, a + b) == Run(Run(r, a), b)
  {
    if b == [] {
      assert a + b == a;
    } else {
      RunConcat(r, a, b[..|b| - 1]);
      assert (a + b)[..|a + b| - 1] == a + b[..|b| - 1];
    }
  }

  /** The state an event leaves, whatever came before; the other events leave the state as it is. */
  function DecidedState(kind: EventKind): Option<AgentState> {
    match kind
    case SessionStart | Stop => Some(Idle)
    case UserPromptSubmit | PreToolUse | PostToolUse | SubagentStart => Some(Working)
    case PostToolUseFailure | StopFailure => Some(Error)
    case PermissionRequest => Some(Asking)
    case SubagentStop | SessionEnd | Unhandled => None
  }

  ghost predicate LastDecisive(es: seq<Stamped>, k: int) {
    0 <= k < |es| && DecidedState(es[k].event.kind).Some?
    && forall j :: k < j < |es| ==> DecidedState(es[j].event.kind).None?
  }

  lemma DecisionOfStep(r: Record, e: HookEvent, now: int)
    ensures Step(r, e, now).state == if DecidedState(e.kind).Some? then DecidedState(e.kind).value else r.state
  {
  }

  lemma LastDecisiveSnoc(p: seq<Stamped>, s: Stamped, k: int)
    ensures LastDecisive(p + [s], k)
            <==> if DecidedState(s.event.kind).Some? then k == |p| else LastDecisive(p, k)
  {
    var es := p + [s];
    assert forall j :: 0 <= j < |p| ==> es[j] == p[j];
    if LastDecisive(es, k) && k < |p| {
      assert DecidedState(es[|p|].event.kind).None?;
    }
  }

  /** After any history the state is the one its last decisive event asks for. In particular an agent
      is shown as asking exactly from a permission request to the next decisive event. */
  lemma {:induction false} LastDecisiveEventSetsState(r: Record, es: seq<Stamped>)
    ensures forall k :: LastDecisive(es, k) ==> DecidedState(es[k].event.kind) == Some(Run(r, es).state)
    ensures (forall k :: !LastDecisive(es, k)) ==> Run(r, es).state == r.state
  {
    if es != [] {
      var p, s := es[..|es| - 1], es[|es| - 1];
      LastDecisiveEventSetsState(r, p);
      assert es == p + [s];
      DecisionOfStep(Run(r, p), s.event, s.now);
      forall k ensures LastDecisive(es, k) <==>
                         if DecidedState(s.event.kind).Some? then k == |p| else LastDecisive(p, k)
      {
        LastDecisiveSnoc(p, s, k);
      }
      if DecidedState(s.event.kind).Some? { assert LastDecisive(es, |p|); }
    }
  }

  /** Tool results of a working agent change nothing its desk shows: the clock keeps running. */
  lemma {:induction false} ToolResultsKeepTheClock(r: Record, results: seq<Stamped>)
    requires r.state == Working
    requires forall i :: 0 <= i < |results| ==> results[i].event.kind == PostToolUse
    ensures Run(r, results).Shown() == r.Shown() && Run(r, results).labelStack == r.labelStack
  {
    if results != [] { ToolResultsKeepTheClock(r, results[..|results| - 1]); }
  }

  // ---- the label, the clock and the directory after any history ----

  predicate Labels(kind: EventKind) { kind !in {PostToolUse, SessionEnd, Unhandled} }

  predicate NamesTool(e: HookEvent) { e.toolName.Some? && e.toolName.value != "" }

  /** The label a labelling event puts up, given the stack it found. */
  predicate PutsUp(e: HookEvent, stack: seq<string>, text: string) {
    match e.kind
    case SessionStart | Stop => text == "Idle"
    case UserPromptSubmit => text == "Processing prompt"
    case PreToolUse => text == LabelForTool(e.toolName)
    case PostToolUseFailure => text == "Tool error: " + (if NamesTool(e) then e.toolName.value else "unknown")
    case PermissionRequest => text == "Awaiting approval: " + (if NamesTool(e) then e.toolName.value else "tool")
    case StopFailure => text == "Session error (API failure)"
    case SubagentStart =>
      text == "Working: subagent ("
               + (if e.agentType.Some? && e.agentType.value != "" then e.agentType.value else "agent") + ")"
    case SubagentStop => text == if stack == [] then "Working" else stack[|stack| - 1]
    case _ => false
  }

  ghost predicate LastLabelling(es: seq<Stamped>, k: int) {
    0 <= k < |es| && Labels(es[k].event.kind) && forall j :: k < j < |es| ==> !Labels(es[j].event.kind)
  }

  lemma LastLabellingSnoc(p: seq<Stamped>, s: Stamped, k: int)
    ensures LastLabelling(p + [s], k) <==> if Labels(s.event.kind) then k == |p| else LastLabelling(p, k)
  {
    var es := p + [s];
    assert forall j :: 0 <= j < |p| ==> es[j] == p[j];
    if LastLabelling(es, k) && k < |p| {
      assert !Labels(es[|p|].event.kind);
    }
  }

  lemma LabelOfStep(r: Record, e: HookEvent, now: int)
    ensures if Labels(e.kind) then PutsUp(e, r.labelStack, Step(r, e, now).actionLabel)
            else Step(r, e, now).actionLabel == r.actionLabel
  {
  }

  /** The text is what the k-th event put up, on the stack it found. */
  predicate PutUpAt(r: Record, es: seq<Stamped>, k: int, text: string)
    requires 0 <= k < |es|
  {
    PutsUp(es[k].event, Run(r, es[..k]).labelStack, text)
  }

  lemma PutUpInPrefix(r: Record, p: seq<Stamped>, s: Stamped, k: int, text: string)
    requires 0 <= k < |p|
    ensures PutUpAt(r, p + [s], k, text) <==> PutUpAt(r, p, k, text)
  {
    assert (p + [s])[..k] == p[..k];
  }

  /** After any history the label is the one its last labelling event put up. */
  lemma {:induction false} LabelIsOfLastLabellingEvent(r: Record, es: seq<Stamped>)
    ensures forall k :: LastLabelling(es, k) ==> PutUpAt(r, es, k, Run(r, es).actionLabel)
    ensures (forall k :: !LastLabelling(es, k)) ==> Run(r, es).actionLabel == r.actionLabel
  {
    if es != [] {
      var p, s := es[..|es| - 1], es[|es| - 1];
      LabelIsOfLastLabellingEvent(r, p);
      assert es == p + [s] && es[..|p|] == p;
      LabelOfStep(Run(r, p), s.event, s.now);
      forall k ensures LastLabelling(es, k) <==> if Labels(s.event.kind) then k == |p| else LastLabelling(p, k) {
        LastLabellingSnoc(p, s, k);
      }
      if Labels(s.event.kind) {
        assert LastLabelling(es, |p|);
      } else {
        forall k | LastLabelling(p, k) ensures PutUpAt(r, es, k, Run(r, es).actionLabel) {
          PutUpInPrefix(r, p, s, k, Run(r, p).actionLabel);
        }
      }
    }
  }

  /** Whether the k-th event restarts the clock: a tool result does so only when it ends a pause. */
  predicate Restarts(r: Record, es: seq<Stamped>, k: int)
    requires 0 <= k < |es|
  {
    && es[k].event.kind !in {SessionEnd, Unhandled}
    && (es[k].event.kind == PostToolUse ==> Run(r, es[..k]).state != Working)
  }

  ghost predicate LastRestart(r: Record, es: seq<Stamped>, k: int) {
    0 <= k < |es| && Restarts(r, es, k) && forall j :: k < j < |es| ==> !Restarts(r, es, j)
  }

  lemma RestartsInPrefix(r: Record, p: seq<Stamped>, s: Stamped, k: int)
    requires 0 <= k < |p|
    ensures Restarts(r, p + [s], k) <==> Restarts(r, p, k)
  {
    assert (p + [s])[..k] == p[..k];
  }

  lemma LastRestartSnoc(r: Record, p: seq<Stamped>, s: Stamped, k: int)
    ensures LastRestart(r, p + [s], k)
            <==> if Restarts(r, p + [s], |p|) then k == |p| else LastRestart(r, p, k)
  {
    var es := p + [s];
    forall j | 0 <= j < |p| ensures Restarts(r, es, j) <==> Restarts(r, p, j) { RestartsInPrefix(r, p, s, j); }
    if LastRestart(r, es, k) && k < |p| {
      assert !Restarts(r, es, |p|);
    }
  }

  lemma ClockOfStep(r: Record, e: HookEvent, now: int)
    ensures Step(r, e, now).stateSince ==
              if e.kind in {SessionEnd, Unhandled} || (e.kind == PostToolUse && r.state == Working) then r.stateSince
              else now
  {
  }

  /** After any history the status dates from the last event that restarted the clock. */
  lemma {:induction false} SinceIsOfLastRestart(r: Record, es: seq<Stamped>)
    ensures forall k :: LastRestart(r, es, k) ==> Run(r, es).stateSince == es[k].now
    ensures (forall k :: !LastRestart(r, es, k)) ==> Run(r, es).stateSince == r.stateSince
  {
    if es != [] {
      var p, s := es[..|es| - 1], es[|es| - 1];
      SinceIsOfLastRestart(r, p);
      assert es == p + [s] && es[..|p|] == p;
      ClockOfStep(Run(r, p), s.event, s.now);
      forall k ensures LastRestart(r, es, k) <==> if Restarts(r, es, |p|) then k == |p| else LastRestart(r, p, k) {
        LastRestartSnoc(r, p, s, k);
      }
      if Restarts(r, es, |p|) { assert LastRestart(r, es, |p|); }
    }
  }

  ghost predicate LastMove(es: seq<Stamped>, k: int) {
    0 <= k < |es| && es[k].event.cwd != "" && forall j :: k < j < |es| ==> es[j].event.cwd == ""
  }

  lemma CwdOfStep(r: Record, e: HookEvent, now: int)
    ensures Step(r, e, now).cwd == if e.cwd != "" then e.cwd else r.cwd
  {
  }

  lemma LastMoveSnoc(p: seq<Stamped>, s: Stamped, k: int)
    ensures LastMove(p + [s], k) <==> if s.event.cwd != "" then k == |p| else LastMove(p, k)
  {
    var es := p + [s];
    assert forall j :: 0 <= j < |p| ==> es[j] == p[j];
    if LastMove(es, k) && k < |p| {
      assert es[|p|].event.cwd == "";
    }
  }

  /** The directory is the last one an event of any kind came with. */
  lemma {:induction false} CwdIsOfLastMove(r: Record, es: seq<Stamped>)
    ensures forall k :: LastMove(es, k) ==> Run(r, es).cwd == es[k].event.cwd
    ensures (forall k :: !LastMove(es, k)) ==> Run(r, es).cwd == r.cwd
  {
    if es != [] {
      var p, s := es[..|es| - 1], es[|es| - 1];
      CwdIsOfLastMove(r, p);
      assert es == p + [s];
      CwdOfStep(Run(r, p), s.event, s.now);
      forall k ensures LastMove(es, k) <==> if s.event.cwd != "" then k == |p| else LastMove(p, k) {
        LastMoveSnoc(p, s, k);
      }
      if s.event.cwd != "" { assert LastMove(es, |p|); }
    }
  }

  // ---- brackets ----

  /** `es` never closes more brackets than it opens beyond `depth`, and ends with all of them closed. */
  predicate BalancedFrom(es: seq<Stamped>, depth: nat) {
    if es == [] then depth == 0
    else match es[0].event.kind
      case SessionEnd => false
      case SubagentStart => BalancedFrom(es[1..], depth + 1)
      case SubagentStop => depth > 0 && BalancedFrom(es[1..], depth - 1)
      case _ => BalancedFrom(es[1..], depth)
  }

  /** What a step does to the label stack. */
  lemma StackOfStep(r: Record, e: HookEvent, now: int)
    ensures Step(r, e, now).labelStack ==
              match e.kind
              case SubagentStart => r.labelStack + [r.actionLabel]
              case SubagentStop => if r.labelStack == [] then [] else r.labelStack[..|r.labelStack| - 1]
              case _ => r.labelStack
    ensures e.kind == SubagentStop && r.labelStack != [] ==>
              Step(r, e, now).actionLabel == r.labelStack[|r.labelStack| - 1]
  {
  }

  lemma RunCons(r: Record, s: Stamped, es: seq<Stamped>)
    ensures Run(r, [s] + es) == Run(Step(r, s.event, s.now), es)
  {
    assert [s][..0] == [];
    RunConcat(r, [s], es);
  }

  lemma StepAboveBase(r: Record, e: HookEvent, now: int, base: seq<string>)
    requires base <= r.labelStack && (e.kind == SubagentStop ==> |base| < |r.labelStack|)
    ensures var stack := Step(r, e, now).labelStack;
            && base <= stack
            && |stack| == |r.labelStack| + match e.kind case SubagentStart => 1 case SubagentStop => -1 case _ => 0
  {
    StackOfStep(r, e, now);
  }

  lemma {:induction false} BalancedKeepsBase(r: Record, es: seq<Stamped>, base: seq<string>)
    requires base <= r.labelStack
    requires BalancedFrom(es, |r.labelStack| - |base|)
    ensures Run(r, es).labelStack == base
    decreases |es|
  {
    if es != [] {
      assert [es[0]] + es[1..] == es;
      RunCons(r, es[0], es[1..]);
      StepAboveBase(r, es[0].event, es[0].now, base);
      BalancedKeepsBase(Step(r, es[0].event, es[0].now), es[1..], base);
    }
  }

  /** A subagent bracket is invisible afterwards: label and stack are exactly those before it,
      whatever balanced traffic (nested subagents, tools, failures, Stop, unknown events) it held. */
  lemma SubagentBracketRestores(r: Record, start: Stamped, body: seq<Stamped>, stop: Stamped)
    requires start.event.kind == SubagentStart && stop.event.kind == SubagentStop
    requires BalancedFrom(body, 0)
    ensures var r' := Run(r, [start] + body + [stop]);
            r'.actionLabel == r.actionLabel && r'.labelStack == r.labelStack
  {
    var r1 := Step(r, start.event, start.now);
    var r2 := Run(r1, body);
    RunCons(r, start, body);
    StackOfStep(r, start.event, start.now);
    BalancedKeepsBase(r1, body, r1.labelStack);
    RunConcat(r, [start] + body, [stop]);
    RunCons(r2, stop, []);
    assert [stop] + [] == [stop];
    StackOfStep(r2, stop.event, stop.now);
    assert r1.labelStack[..|r1.labelStack| - 1] == r.labelStack;
  }

  lemma {:induction false} LastDecisiveFrom(es: seq<Stamped>, i: nat) returns (k: nat)
    requires i < |es| && DecidedState(es[i].event.kind).Some?
    ensures i <= k && LastDecisive(es, k)
    decreases |es| - i
  {
    if j :| i < j < |es| && DecidedState(es[j].event.kind).Some? {
      k := LastDecisiveFrom(es, j);
    } else {
      k := i;
    }
  }

  /** The restoration covers the label only. The state is the one from before exactly if the last decisive
      event of the bracket, the start included, asks for that state. */
  lemma BracketRestoresStateIffLastEventDoes(r: Record, start: Stamped, body: seq<Stamped>, stop: Stamped)
    returns (k: nat)
    requires start.event.kind == SubagentStart && stop.event.kind == SubagentStop
    ensures k <= |body| && LastDecisive([start] + body + [stop], k)
    ensures Run(r, [start] + body + [stop]).state == r.state
            <==> DecidedState(([start] + body)[k].event.kind) == Some(r.state)
  {
    var all := [start] + body + [stop];
    k := LastDecisiveFrom(all, 0);
    assert k != |body| + 1;
    LastDecisiveEventSetsState(r, all);
  }

  /** So an empty bracket restores it exactly when the agent was already working. */
  lemma EmptyBracketRestoresStateIffWorking(r: Record, start: Stamped, stop: Stamped)
    requires start.event.kind == SubagentStart && stop.event.kind == SubagentStop
    ensures Run(r, [start, stop]).state == r.state <==> r.state == Working
  {
    var k := BracketRestoresStateIffLastEventDoes(r, start, [], stop);
    assert [start] + [] + [stop] == [start, stop];
  }

  // ---- what the label stack holds ----

  function Delta(s: Stamped): int {
    match s.event.kind
    case SubagentStart => 1
    case SubagentStop => -1
    case _ => 0
  }

  /** Subagent starts minus subagent stops. */
  function Balance(es: seq<Stamped>): int {
    if es == [] then 0 else Balance(es[..|es| - 1]) + Delta(es[|es| - 1])
  }

  /** Position i starts a subagent that nothing later in `es` has stopped. */
  ghost predicate UnmatchedStart(es: seq<Stamped>, i: int) {
    0 <= i < |es| && es[i].event.kind == SubagentStart
    && forall k :: i < k <= |es| ==> Balance(es[i..k]) >= 1
  }

  /** Positions of the starts whose labels are on the stack, oldest first. */
  function OpenStarts(es: seq<Stamped>): seq<nat> {
    if es == [] then []
    else
      var before := OpenStarts(es[..|es| - 1]);
      match es[|es| - 1].event.kind
      case SubagentStart => before + [|es| - 1]
      case SubagentStop => if before == [] then [] else before[..|before| - 1]
      case _ => before
  }

  lemma {:induction false} BalanceSnoc(es: seq<Stamped>, i: nat)
    requires i < |es|
    ensures Balance(es[i..]) == Balance(es[..|es| - 1][i..]) + Delta(es[|es| - 1])
  {
    assert es[i..][..|es[i..]| - 1] == es[..|es| - 1][i..];
  }

  lemma {:induction false} OpenStartsShape(es: seq<Stamped>)
    ensures forall j :: 0 <= j < |OpenStarts(es)| ==>
              OpenStarts(es)[j] < |es| && Balance(es[OpenStarts(es)[j]..]) == |OpenStarts(es)| - j
    ensures forall j, k :: 0 <= j < k < |OpenStarts(es)| ==> OpenStarts(es)[j] < OpenStarts(es)[k]
    ensures forall i :: 0 <= i <= |es| ==> Balance(es[i..]) <= |OpenStarts(es)|
  {
    if es != [] {
      var p := es[..|es| - 1];
      var u := OpenStarts(es);
      OpenStartsShape(p);
      assert Balance(es[|es| - 1..]) == Delta(es[|es| - 1]) by {
        assert es[|es| - 1..] == [es[|es| - 1]] && [es[|es| - 1]][..0] == [];
      }
      forall i | 0 <= i < |es|
        ensures Balance(es[i..]) == Balance(p[i..]) + Delta(es[|es| - 1])
      {
        BalanceSnoc(es, i);
      }
    }
  }

  lemma UnmatchedSnoc(es: seq<Stamped>, i: nat)
    requires i < |es| - 1
    ensures UnmatchedStart(es, i) <==> UnmatchedStart(es[..|es| - 1], i) && Balance(es[i..]) >= 1
  {
    var n := |es| - 1;
    var p := es[..n];
    assert forall k :: i < k <= n ==> es[i..k] == p[i..k];
    assert es[i..n + 1] == es[i..];
    if UnmatchedStart(es, i) {
      forall k | i < k <= n ensures Balance(p[i..k]) >= 1 { assert Balance(es[i..k]) >= 1; }
      assert Balance(es[i..n + 1]) >= 1;
    } else if UnmatchedStart(p, i) && Balance(es[i..]) >= 1 {
      forall k | i < k <= n + 1 ensures Balance(es[i..k]) >= 1 {
        if k <= n { assert Balance(p[i..k]) >= 1; }
      }
    }
  }

  lemma {:induction false} OpenStartsAreUnmatched(es: seq<Stamped>, i: nat)
    ensures i in OpenStarts(es) <==> UnmatchedStart(es, i)
  {
    if es != [] {
      var n := |es| - 1;
      var p := es[..n];
      OpenStartsAreUnmatched(p, i);
      OpenStartsShape(p);
      OpenStartsShape(es);
      if i < n {
        UnmatchedSnoc(es, i);
        BalanceSnoc(es, i);
        SurvivorsOutliveTheStep(es, i);
      } else if i == n {
        assert es[n..n + 1] == [es[n]] && [es[n]][..0] == [];
        assert forall k :: n < k <= |es| ==> es[n..k] == [es[n]];
      }
    }
  }

  lemma SurvivorsOutliveTheStep(es: seq<Stamped>, i: nat)
    requires i < |es| - 1
    ensures i in OpenStarts(es) <==> i in OpenStarts(es[..|es| - 1]) && Balance(es[i..]) >= 1
  {
    var p := es[..|es| - 1];
    var before := OpenStarts(p);
    OpenStartsShape(p);
    BalanceSnoc(es, i);
    if i in before {
      var j :| 0 <= j < |before| && before[j] == i;
      assert Balance(p[i..]) == |before| - j;
      match es[|es| - 1].event.kind
      case SubagentStop =>
        if j < |before| - 1 {
          assert before[..|before| - 1][j] == i;
        } else {
          assert forall k :: 0 <= k < j ==> before[k] < i;
        }
      case SubagentStart => assert (before + [|es| - 1])[j] == i;
      case _ =>
    }
  }

  /** The stack lists the labels held just before the given positions of a history. */
  ghost predicate Lists(stack: seq<string>, r: Record, es: seq<Stamped>, starts: seq<nat>) {
    && |stack| == |starts|
    && forall j :: 0 <= j < |starts| ==> starts[j] < |es| && stack[j] == Run(r, es[..starts[j]]).actionLabel
  }

  lemma ListsSnoc(stack: seq<string>, r: Record, p: seq<Stamped>, s: Stamped, starts: seq<nat>)
    requires Lists(stack, r, p, starts)
    ensures Lists(stack, r, p + [s], starts)
    ensures Lists(stack + [Run(r, p).actionLabel], r, p + [s], starts + [|p|])
    ensures starts != [] ==> Lists(stack[..|stack| - 1], r, p + [s], starts[..|starts| - 1])
  {
    assert forall k: nat :: k <= |p| ==> (p + [s])[..k] == p[..k];
    assert p[..|p|] == p;
  }

  lemma {:induction false} OpenStartsCarryTheStack(r: Record, es: seq<Stamped>)
    requires r.labelStack == []
    ensures Lists(Run(r, es).labelStack, r, es, OpenStarts(es))
  {
    if es != [] {
      var p, s := es[..|es| - 1], es[|es| - 1];
      OpenStartsCarryTheStack(r, p);
      var r1, stack, before := Run(r, p), Run(r, p).labelStack, OpenStarts(p);
      assert es == p + [s];
      ListsSnoc(stack, r, p, s, before);
      StackOfStep(r1, s.event, s.now);
      match s.event.kind
      case SubagentStart => assert Lists(stack + [r1.actionLabel], r, es, before + [|p|]);
      case SubagentStop =>
        if before != [] { assert Lists(stack[..|stack| - 1], r, es, before[..|before| - 1]); }
      case _ => assert Lists(stack, r, es, before);
    }
  }

  /** Depth law: the stack is as deep as the largest excess of starts over stops in any suffix
      of the record's life, unmatched stops included. */
  lemma StackDepthIsMaxSuffix(r: Record, es: seq<Stamped>)
    requires r.labelStack == []
    ensures forall i :: 0 <= i <= |es| ==> Balance(es[i..]) <= |Run(r, es).labelStack|
    ensures exists i :: 0 <= i <= |es| && Balance(es[i..]) == |Run(r, es).labelStack|
  {
    OpenStartsCarryTheStack(r, es);
    OpenStartsShape(es);
    if OpenStarts(es) == [] {
      assert Balance(es[|es|..]) == 0;
    } else {
      assert Balance(es[OpenStarts(es)[0]..]) == |OpenStarts(es)|;
    }
  }

  /** Content law: the stack lists, oldest first, the label held just before each unmatched start. */
  lemma StackHoldsLabelsBeforeUnmatchedStarts(r: Record, es: seq<Stamped>) returns (starts: seq<nat>)
    requires r.labelStack == []
    ensures |Run(r, es).labelStack| == |starts|
    ensures forall j, k :: 0 <= j < k < |starts| ==> starts[j] < starts[k]
    ensures forall i: nat :: i in starts <==> UnmatchedStart(es, i)
    ensures forall j :: 0 <= j < |starts| ==>
              starts[j] < |es| && Run(r, es).labelStack[j] == Run(r, es[..starts[j]]).actionLabel
  {
    starts := OpenStarts(es);
    OpenStartsCarryTheStack(r, es);
    OpenStartsShape(es);
    forall i: nat ensures i in starts <==> UnmatchedStart(es, i) {
      OpenStartsAreUnmatched(es, i);
    }
  }
}
