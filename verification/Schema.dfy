/** Records and wire messages shared by the daemon and the frontend (common/schema.py, common/constants.py). */
module Schema {

  datatype Option<+T> = None | Some(value: T)

  // The hook events the installer subscribes to.
  function TargetHookEvents(): seq<string> {
    ["SessionStart", "SessionEnd", "UserPromptSubmit", "PreToolUse", "PostToolUse",
     "PostToolUseFailure", "PermissionRequest", "Stop", "StopFailure", "SubagentStart", "SubagentStop"]
  }

  datatype AgentState = Idle | Working | Asking | Error

  /** What a desk shows of its agent: the three fields every broadcast diff exists to publish. */
  datatype Status = Status(state: AgentState, actionLabel: string, stateSince: int)

  /** The value of one tracked session's record at one moment. */
  datatype Record = Record(
    sessionId: string, projectName: string, cwd: string, pid: Option<int>, entrypoint: string,
    state: AgentState, actionLabel: string, stateSince: int, labelStack: seq<string>)
  {
    function Shown(): Status { Status(state, actionLabel, stateSince) }

    /** The record as it goes on the wire: everything but the label stack. */
    function ToWire(): Wire {
      Wire(sessionId, projectName, cwd, pid, entrypoint, state, actionLabel, stateSince)
    }
  }

  datatype Wire = Wire(
    sessionId: string, projectName: string, cwd: string, pid: Option<int>, entrypoint: string,
    state: AgentState, actionLabel: string, stateSince: int)
  {
    function Shown(): Status { Status(state, actionLabel, stateSince) }
  }

  /** Every field of a record but its label stack, as sent. */
  predicate Carries(w: Wire, r: Record) {
    && w.sessionId == r.sessionId && w.projectName == r.projectName && w.cwd == r.cwd && w.pid == r.pid
    && w.entrypoint == r.entrypoint && w.state == r.state && w.actionLabel == r.actionLabel
    && w.stateSince == r.stateSince
  }

  /** Daemon messages, and the connection notices the network thread puts on the same queue. */
  datatype Message =
    | Snapshot(agents: map<string, Wire>)
    | Upsert(sid: string, agent: Wire)
    | Remove(sid: string)
    | ConnStatus(connected: bool)

  /** The mutable record object itself. Registry and pending broadcasts hold references to it. */
  class AgentRecord {
    var sessionId: string
    var projectName: string
    var cwd: string
    var pid: Option<int>
    var entrypoint: string
    var state: AgentState
    var actionLabel: string
    var stateSince: int
    var labelStack: seq<string>

    function Value(): Record
      reads this
    {
      Record(sessionId, projectName, cwd, pid, entrypoint, state, actionLabel, stateSince, labelStack)
    }

    constructor (r: Record)
      ensures Value() == r
    {
      sessionId, projectName, cwd, pid, entrypoint := r.sessionId, r.projectName, r.cwd, r.pid, r.entrypoint;
      state, actionLabel, stateSince, labelStack := r.state, r.actionLabel, r.stateSince, r.labelStack;
    }
  }
}
