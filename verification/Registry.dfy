/** The daemon's single source of truth (daemon/registry.py), with session files and process
    liveness as arbitrary answers supplied by the environment. */
module Registry {
  import opened Schema
  import opened StateMachine

  /** What a session file says about one session. */
  datatype SessionInfo = SessionInfo(pid: Option<int>, entrypoint: Option<string>, name: Option<string>)

  /** The file found for each session id, for the ids that have one. */
  type Files = map<string, SessionInfo>

  // ---- one record ----

  function ResolveIdentity(r: Record, files: Files): Record {
    if r.pid.Some? || r.sessionId !in files then r
    else
      var info := files[r.sessionId];
      r.(pid := info.pid,
         entrypoint := if info.entrypoint.Some? then info.entrypoint.value else r.entrypoint,
         projectName := OrElse(info.name, r.projectName))
  }

  /** `alive` holds the sessions whose process answered the liveness probe; pid 0 is never alive. */
  predicate Dead(r: Record, sid: string, alive: set<string>) {
    r.pid.Some? && (r.pid.value == 0 || sid !in alive)
  }

  // ---- the whole registry, by value ----

  type Sessions = map<string, Record>

  datatype RegistryStep =
    | SeedStep(record: Record)
    | EventStep(event: HookEvent, now: int, files: Files)
    | ResolveStep(files: Files)
    | ReapStep(alive: set<string>)

  function Lookup(m: Sessions, sid: string): Option<Record> {
    if sid in m then Some(m[sid]) else None
  }

  function Put(m: Sessions, sid: string, r: Option<Record>): Sessions {
    match r case Some(v) => m[sid := v] case None => m - {sid}
  }

  /** The value an event leaves in the record object it is applied to. */
  function AfterEvent(known: bool, r: Record, e: HookEvent, now: int, files: Files): Record {
    if OpFor(known, e) == OpUpsert then ResolveIdentity(Step(r, e, now), files) else Step(r, e, now)
  }

  function EventOn(existing: Option<Record>, e: HookEvent, now: int, files: Files): Option<Record> {
    if OpFor(existing.Some?, e) == OpRemove then None
    else Some(AfterEvent(existing.Some?, if existing.Some? then existing.value else NewRecord(e, now), e, now, files))
  }

  function ResolveAll(m: Sessions, files: Files): Sessions {
    map sid | sid in m :: ResolveIdentity(m[sid], files)
  }

  function DeadIds(m: Sessions, alive: set<string>): set<string> {
    set sid | sid in m && Dead(m[sid], sid, alive)
  }

  function Next(m: Sessions, s: RegistryStep): Sessions {
    match s
    case SeedStep(r) => m[r.sessionId := r]
    case EventStep(e, now, files) => Put(m, e.sessionId, EventOn(Lookup(m, e.sessionId), e, now, files))
    case ResolveStep(files) => ResolveAll(m, files)
    case ReapStep(alive) => m - DeadIds(m, alive)
  }

  function Run(m: Sessions, steps: seq<RegistryStep>): Sessions
    decreases |steps|
  {
    if steps == [] then m else Run(Next(m, steps[0]), steps[1..])
  }

  lemma {:induction false} RunConcat(m: Sessions, a: seq<RegistryStep>, b: seq<RegistryStep>)
    ensures Run(m, a + b) == Run(Run(m, a), b)
    decreases |a|
  {
    if a == [] {
      assert a + b == b;
    } else {
      assert (a + b)[1..] == a[1..] + b;
      RunConcat(Next(m, a[0]), a[1..], b);
    }
  }

  // ---- who is registered ----

  /** The step puts the session into the registry, or finds it there and leaves it. */
  predicate Enters(s: RegistryStep, sid: string) {
    (s.SeedStep? && s.record.sessionId == sid)
    || (s.EventStep? && s.event.sessionId == sid && s.event.kind != SessionEnd)
  }

  /** The step takes the session out of registry `m`: it ends, or its process is known to be gone. */
  predicate Ends(m: Sessions, s: RegistryStep, sid: string) {
    (s.EventStep? && s.event.sessionId == sid && s.event.kind == SessionEnd)
    || (s.ReapStep? && sid in m && m[sid].pid.Some? && (m[sid].pid.value == 0 || sid !in s.alive))
  }

  lemma RegisteredAfterStep(m: Sessions, s: RegistryStep, sid: string)
    ensures sid in Next(m, s) <==> Enters(s, sid) || (sid in m && !Ends(m, s, sid))
  {
    if s.EventStep? { OpByKind(s.event.sessionId in m, s.event); }
  }

  /** No step of the run from position `k` on takes the session out. */
  ghost predicate NeverEnds(m: Sessions, steps: seq<RegistryStep>, k: nat, sid: string) {
    forall i :: k <= i < |steps| ==> !Ends(Run(m, steps[..i]), steps[i], sid)
  }

  ghost predicate EntersAndStays(m: Sessions, steps: seq<RegistryStep>, k: int, sid: string) {
    0 <= k < |steps| && Enters(steps[k], sid) && NeverEnds(m, steps, k + 1, sid)
  }

  lemma NeverEndsSnoc(m: Sessions, p: seq<RegistryStep>, s: RegistryStep, k: nat, sid: string)
    requires k <= |p|
    ensures NeverEnds(m, p + [s], k, sid) <==> NeverEnds(m, p, k, sid) && !Ends(Run(m, p), s, sid)
  {
    var steps := p + [s];
    assert steps[..|p|] == p;
    assert forall i :: 0 <= i < |p| ==> steps[i] == p[i] && steps[..i] == p[..i];
    if NeverEnds(m, steps, k, sid) {
      forall i | k <= i < |p| ensures !Ends(Run(m, p[..i]), p[i], sid) {
        assert !Ends(Run(m, steps[..i]), steps[i], sid);
      }
      assert !Ends(Run(m, steps[..|p|]), steps[|p|], sid);
    }
  }

  lemma EntersAndStaysSnoc(m: Sessions, p: seq<RegistryStep>, s: RegistryStep, k: int, sid: string)
    ensures EntersAndStays(m, p + [s], k, sid)
            <==> (k == |p| && Enters(s, sid)) || (EntersAndStays(m, p, k, sid) && !Ends(Run(m, p), s, sid))
  {
    if 0 <= k < |p| {
      NeverEndsSnoc(m, p, s, k + 1, sid);
      assert (p + [s])[k] == p[k];
    }
  }

  /** After any run a session is registered iff it entered, by a seed or an event of any kind but
      SessionEnd, or was there before, and since then neither ended nor was found dead. */
  lemma {:induction false} RegisteredIffEnteredAndNotEnded(m: Sessions, steps: seq<RegistryStep>, sid: string)
    ensures sid in Run(m, steps)
            <==> (sid in m && NeverEnds(m, steps, 0, sid)) || exists k :: EntersAndStays(m, steps, k, sid)
    decreases |steps|
  {
    if steps != [] {
      var p, s := steps[..|steps| - 1], steps[|steps| - 1];
      assert steps == p + [s];
      RegisteredIffEnteredAndNotEnded(m, p, sid);
      RunConcat(m, p, [s]);
      assert [s][1..] == [] && Run(m, steps) == Next(Run(m, p), s);
      RegisteredAfterStep(Run(m, p), s, sid);
      NeverEndsSnoc(m, p, s, 0, sid);
      forall k ensures EntersAndStays(m, steps, k, sid)
                       <==> (k == |p| && Enters(s, sid))
                            || (EntersAndStays(m, p, k, sid) && !Ends(Run(m, p), s, sid))
      {
        EntersAndStaysSnoc(m, p, s, k, sid);
      }
      if Enters(s, sid) { assert EntersAndStays(m, steps, |p|, sid); }
    }
  }

  /** Reaping keeps exactly the sessions without a known pid and those whose process is alive. */
  lemma ReapingKeepsTheLiving(m: Sessions, alive: set<string>, sid: string)
    ensures var m' := Next(m, ReapStep(alive));
            && (sid in m' <==> sid in m && (m[sid].pid.None? || (m[sid].pid.value != 0 && sid in alive)))
            && (sid in m' ==> m'[sid] == m[sid])
  {
  }

  // ---- identities ----

  /** What `r'` has of its identity after a look at the session's file. */
  ghost predicate IdentifiedBy(r: Record, info: SessionInfo, r': Record) {
    && r'.pid == info.pid
    && r'.entrypoint == (if info.entrypoint.Some? then info.entrypoint.value else r.entrypoint)
    && r'.projectName == (if info.name.Some? && info.name.value != "" then info.name.value else r.projectName)
  }

  ghost predicate SameIdentity(r: Record, r': Record) {
    r'.pid == r.pid && r'.entrypoint == r.entrypoint && r'.projectName == r.projectName
  }

  /** A file is consulted only for a session without a pid, and only pid, entrypoint and name come from it. */
  lemma ResolutionByFields(r: Record, files: Files)
    ensures var r' := ResolveIdentity(r, files);
            && (if r.pid.None? && r.sessionId in files then IdentifiedBy(r, files[r.sessionId], r')
                else SameIdentity(r, r'))
            && r'.sessionId == r.sessionId && r'.cwd == r.cwd && r'.labelStack == r.labelStack
            && r'.state == r.state && r'.actionLabel == r.actionLabel && r'.stateSince == r.stateSince
  {
  }

  /** An event looks the identity up, unless it is one the state machine does not handle. */
  lemma IdentityAfterEvent(m: Sessions, e: HookEvent, now: int, files: Files)
    requires WellKeyed(m) && e.kind != SessionEnd
    ensures var sid, m' := e.sessionId, Next(m, EventStep(e, now, files));
            var r := if sid in m then m[sid] else NewRecord(e, now);
            && sid in m'
            && if r.pid.None? && sid in files && !(sid in m && e.kind == Unhandled)
               then IdentifiedBy(r, files[sid], m'[sid])
               else SameIdentity(r, m'[sid])
  {
    var r := if e.sessionId in m then m[e.sessionId] else NewRecord(e, now);
    OpByKind(e.sessionId in m, e);
    StepKeepsIdentity(r, e, now);
    ResolutionByFields(Step(r, e, now), files);
  }

  // ---- session isolation ----

  /** What one step does to one session, looking at that session alone. */
  function NextOne(r: Option<Record>, sid: string, s: RegistryStep): Option<Record> {
    match s
    case SeedStep(seeded) => if seeded.sessionId == sid then Some(seeded) else r
    case EventStep(e, now, files) => if e.sessionId == sid then EventOn(r, e, now, files) else r
    case ResolveStep(files) => if r.Some? then Some(ResolveIdentity(r.value, files)) else None
    case ReapStep(alive) => if r.Some? && Dead(r.value, sid, alive) then None else r
  }

  function RunOne(r: Option<Record>, sid: string, steps: seq<RegistryStep>): Option<Record>
    decreases |steps|
  {
    if steps == [] then r else RunOne(NextOne(r, sid, steps[0]), sid, steps[1..])
  }

  predicate Concerns(s: RegistryStep, sid: string) {
    match s
    case SeedStep(r) => r.sessionId == sid
    case EventStep(e, _, _) => e.sessionId == sid
    case _ => true
  }

  /** The subsequence of a run that is addressed to one session, sweeps included. */
  function OwnSteps(steps: seq<RegistryStep>, sid: string): seq<RegistryStep> {
    if steps == [] then []
    else (if Concerns(steps[0], sid) then [steps[0]] else []) + OwnSteps(steps[1..], sid)
  }

  lemma NextIsPointwise(m: Sessions, s: RegistryStep, sid: string)
    ensures Lookup(Next(m, s), sid) == NextOne(Lookup(m, sid), sid, s)
  {
  }

  /** Whatever traffic is interleaved, a session's entry is the fold of its own steps only. */
  lemma {:induction false} SessionIsolation(m: Sessions, steps: seq<RegistryStep>, sid: string)
    ensures Lookup(Run(m, steps), sid) == RunOne(Lookup(m, sid), sid, OwnSteps(steps, sid))
    decreases |steps|
  {
    if steps != [] {
      NextIsPointwise(m, steps[0], sid);
      SessionIsolation(Next(m, steps[0]), steps[1..], sid);
      var rest := OwnSteps(steps[1..], sid);
      if Concerns(steps[0], sid) {
        assert ([steps[0]] + rest)[1..] == rest;
      } else {
        assert OwnSteps(steps, sid) == rest;
      }
    }
  }

  lemma EventKeepsId(known: bool, r: Record, e: HookEvent, now: int, files: Files)
    ensures AfterEvent(known, r, e, now, files).sessionId == r.sessionId
  {
    StepKeepsIdentity(r, e, now);
  }

  ghost predicate WellKeyed(m: Sessions) {
    forall sid :: sid in m ==> m[sid].sessionId == sid
  }

  lemma NextKeepsWellKeyed(m: Sessions, s: RegistryStep)
    requires WellKeyed(m)
    ensures WellKeyed(Next(m, s))
  {
    if s.EventStep? {
      var known := s.event.sessionId in m;
      EventKeepsId(known, if known then m[s.event.sessionId] else NewRecord(s.event, s.now), s.event, s.now, s.files);
    }
  }

  /** Every reachable registry files each record under its own id. */
  lemma {:induction false} RunKeepsWellKeyed(m: Sessions, steps: seq<RegistryStep>)
    requires WellKeyed(m)
    ensures WellKeyed(Run(m, steps))
    decreases |steps|
  {
    if steps != [] {
      NextKeepsWellKeyed(m, steps[0]);
      RunKeepsWellKeyed(Next(m, steps[0]), steps[1..]);
    }
  }

  /** The session stays registered, as the same record, at every point of the run. */
  ghost predicate LivesThrough(m: Sessions, sid: string, steps: seq<RegistryStep>)
    decreases |steps|
  {
    sid in m && (steps != [] ==>
      !(steps[0].SeedStep? && steps[0].record.sessionId == sid) && LivesThrough(Next(m, steps[0]), sid, steps[1..]))
  }

  lemma StepKeepsKnownIdentity(r: Record, sid: string, s: RegistryStep)
    requires r.pid.Some? && NextOne(Some(r), sid, s).Some? && !(s.SeedStep? && s.record.sessionId == sid)
    ensures var r' := NextOne(Some(r), sid, s).value;
            r'.pid == r.pid && r'.entrypoint == r.entrypoint && r'.projectName == r.projectName
  {
    if s.EventStep? { StepKeepsIdentity(r, s.event, s.now); }
  }

  /** Within one record's life a pid, once known, never changes; nor do the entrypoint and name found with it. */
  lemma {:induction false} KnownPidIsPermanent(m: Sessions, sid: string, steps: seq<RegistryStep>)
    requires LivesThrough(m, sid, steps) && m[sid].pid.Some?
    ensures sid in Run(m, steps)
    ensures var r := Run(m, steps)[sid];
            r.pid == m[sid].pid && r.entrypoint == m[sid].entrypoint && r.projectName == m[sid].projectName
    decreases |steps|
  {
    if steps != [] {
      NextIsPointwise(m, steps[0], sid);
      StepKeepsKnownIdentity(m[sid], sid, steps[0]);
      KnownPidIsPermanent(Next(m, steps[0]), sid, steps[1..]);
    }
  }

  /** Identity resolution and reaping never touch what a desk shows. */
  lemma SweepsKeepStatus(m: Sessions, files: Files, alive: set<string>, sid: string)
    requires sid in Next(Next(m, ResolveStep(files)), ReapStep(alive))
    ensures sid in m && Next(Next(m, ResolveStep(files)), ReapStep(alive))[sid].Shown() == m[sid].Shown()
    ensures Next(Next(m, ResolveStep(files)), ReapStep(alive))[sid].labelStack == m[sid].labelStack
  {
  }

  // ---- cold start ----

  /** One parsed session file, as cold start reads it. */
  datatype FileEntry = FileEntry(
    sessionId: Option<string>, cwd: Option<string>, pid: Option<int>, pidAlive: bool,
    entrypoint: Option<string>, name: Option<string>)

  predicate Seedable(f: FileEntry) {
    f.pid.Some? && f.pid.value != 0 && f.pidAlive && OrElse(f.sessionId, "") != ""
  }

  function SeedRecord(f: FileEntry, now: int): Record
    requires Seedable(f)
  {
    var cwd := if f.cwd.Some? then f.cwd.value else "";
    Record(f.sessionId.value, OrElse(f.name, ProjectNameFromCwd(cwd)), cwd, f.pid,
           if f.entrypoint.Some? then f.entrypoint.value else "unknown", Idle, "Idle", now, [])
  }

  /** The registry after cold start: later files win over earlier ones for the same session. */
  function Seeded(files: seq<FileEntry>, now: int): Sessions {
    if files == [] then map[]
    else
      var before := Seeded(files[..|files| - 1], now);
      var f := files[|files| - 1];
      if Seedable(f) then before[f.sessionId.value := SeedRecord(f, now)] else before
  }

  /** The i-th file is of this session, and its process was alive. */
  ghost predicate LiveAt(files: seq<FileEntry>, i: int, sid: string) {
    0 <= i < |files| && files[i].sessionId == Some(sid) && sid != ""
    && files[i].pid.Some? && files[i].pid.value != 0 && files[i].pidAlive
  }

  ghost predicate LastLiveAt(files: seq<FileEntry>, i: int, sid: string) {
    LiveAt(files, i, sid) && forall j :: i < j < |files| ==> !LiveAt(files, j, sid)
  }

  lemma LastLiveSnoc(p: seq<FileEntry>, f: FileEntry, i: int, sid: string)
    ensures LastLiveAt(p + [f], i, sid) <==> if LiveAt([f], 0, sid) then i == |p| else LastLiveAt(p, i, sid)
  {
    var files := p + [f];
    assert forall j :: 0 <= j < |p| ==> files[j] == p[j];
    assert LiveAt(files, |p|, sid) <==> LiveAt([f], 0, sid);
    forall j | 0 <= j < |p| ensures LiveAt(files, j, sid) <==> LiveAt(p, j, sid) {}
    if LastLiveAt(p, i, sid) && !LiveAt([f], 0, sid) {
      forall j | i < j < |files| ensures !LiveAt(files, j, sid) {
        if j < |p| { assert !LiveAt(p, j, sid); }
      }
    }
    if LastLiveAt(files, i, sid) && i < |p| {
      assert !LiveAt(files, |p|, sid);
      forall j | i < j < |p| ensures !LiveAt(p, j, sid) { assert !LiveAt(files, j, sid); }
    }
  }

  /** The record cold start makes of a file: idle since the start, named, with the file's identity. */
  ghost predicate SeededFrom(r: Record, f: FileEntry, now: int) {
    && Some(r.sessionId) == f.sessionId && r.pid == f.pid
    && r.cwd == (if f.cwd.Some? then f.cwd.value else "")
    && r.entrypoint == (if f.entrypoint.Some? then f.entrypoint.value else "unknown")
    && r.projectName == (if f.name.Some? && f.name.value != "" then f.name.value else ProjectNameFromCwd(r.cwd))
    && r.projectName != "" && r.pid.Some? && r.pid.value != 0
    && r.state == Idle && r.actionLabel == "Idle" && r.stateSince == now && r.labelStack == []
  }

  /** Cold start registers exactly the sessions with a live file, each as the last such file says. */
  lemma {:induction false} ColdStartRegistersLiveSessions(files: seq<FileEntry>, now: int)
    ensures WellKeyed(Seeded(files, now))
    ensures forall sid :: sid in Seeded(files, now) <==> exists i :: LastLiveAt(files, i, sid)
    ensures forall sid, i :: LastLiveAt(files, i, sid) && sid in Seeded(files, now) ==>
              SeededFrom(Seeded(files, now)[sid], files[i], now)
  {
    if files != [] {
      var p, f := files[..|files| - 1], files[|files| - 1];
      ColdStartRegistersLiveSessions(p, now);
      assert files == p + [f];
      forall sid ensures LiveAt([f], 0, sid) <==> Seedable(f) && f.sessionId.value == sid {}
      forall sid
        ensures sid in Seeded(files, now) <==> exists i :: LastLiveAt(files, i, sid)
        ensures forall i :: LastLiveAt(files, i, sid) && sid in Seeded(files, now) ==>
                  SeededFrom(Seeded(files, now)[sid], files[i], now)
      {
        SeededSnoc(p, f, now, sid);
      }
    }
  }

  lemma SeededSnoc(p: seq<FileEntry>, f: FileEntry, now: int, sid: string)
    requires sid in Seeded(p, now) <==> exists i :: LastLiveAt(p, i, sid)
    requires forall i :: LastLiveAt(p, i, sid) && sid in Seeded(p, now) ==> SeededFrom(Seeded(p, now)[sid], p[i], now)
    ensures sid in Seeded(p + [f], now) <==> exists i :: LastLiveAt(p + [f], i, sid)
    ensures forall i :: LastLiveAt(p + [f], i, sid) && sid in Seeded(p + [f], now) ==>
              SeededFrom(Seeded(p + [f], now)[sid], (p + [f])[i], now)
  {
    var files := p + [f];
    assert files[..|p|] == p;
    forall i ensures LastLiveAt(files, i, sid) <==> if LiveAt([f], 0, sid) then i == |p| else LastLiveAt(p, i, sid) {
      LastLiveSnoc(p, f, i, sid);
    }
    if LiveAt([f], 0, sid) {
      assert LastLiveAt(files, |p|, sid);
    } else {
      assert sid in Seeded(files, now) <==> sid in Seeded(p, now);
      forall i | LastLiveAt(p, i, sid) ensures files[i] == p[i] && LastLiveAt(files, i, sid) {}
    }
  }

  // ---- records by reference ----

  /** The registry as the daemon holds it: session ids map to references, and `heap` gives the
      present value of every record object, registered or detached. */
  datatype Store<Ref> = Store(heap: map<Ref, Record>, agents: map<string, Ref>)

  ghost predicate WellFormed<Ref>(s: Store<Ref>) {
    forall sid :: sid in s.agents ==> s.agents[sid] in s.heap && s.heap[s.agents[sid]].sessionId == sid
  }

  /** Forgets references: the value of each registered record. */
  function Values<Ref>(s: Store<Ref>): Sessions
    requires WellFormed(s)
  {
    map sid | sid in s.agents :: s.heap[s.agents[sid]]
  }

  function SeedStore<Ref>(s: Store<Ref>, r: Ref, record: Record): Store<Ref> {
    Store(s.heap[r := record], s.agents[record.sessionId := r])
  }

  /** An event for a registered session mutates its record object in place, even when it detaches it. */
  function KnownEvent<Ref>(s: Store<Ref>, e: HookEvent, now: int, files: Files): Store<Ref>
    requires WellFormed(s) && e.sessionId in s.agents
  {
    var r := s.agents[e.sessionId];
    Store(s.heap[r := AfterEvent(true, s.heap[r], e, now, files)],
          if OpFor(true, e) == OpRemove then s.agents - {e.sessionId} else s.agents)
  }

  /** An event for an unknown session registers the newly allocated record `r`, unless it is a SessionEnd. */
  function NewEvent<Ref>(s: Store<Ref>, e: HookEvent, now: int, files: Files, r: Ref): Store<Ref> {
    if OpFor(false, e) == OpRemove then s
    else Store(s.heap[r := AfterEvent(false, NewRecord(e, now), e, now, files)], s.agents[e.sessionId := r])
  }

  function EventStore<Ref>(s: Store<Ref>, e: HookEvent, now: int, files: Files, r: Ref): Store<Ref>
    requires WellFormed(s)
  {
    if e.sessionId in s.agents then KnownEvent(s, e, now, files) else NewEvent(s, e, now, files, r)
  }

  predicate Registered<Ref>(s: Store<Ref>, r: Ref)
    requires r in s.heap
  {
    var sid := s.heap[r].sessionId;
    sid in s.agents && s.agents[sid] == r
  }

  /** Identity resolution of every registered record but those of the sessions in `todo`. */
  function ResolveBut<Ref>(s: Store<Ref>, files: Files, todo: set<string>): Store<Ref> {
    Store(map r | r in s.heap ::
            if Registered(s, r) && s.heap[r].sessionId !in todo then ResolveIdentity(s.heap[r], files) else s.heap[r],
          s.agents)
  }

  function ResolveStore<Ref>(s: Store<Ref>, files: Files): Store<Ref> {
    ResolveBut(s, files, {})
  }

  lemma ResolveOneMore<Ref>(s: Store<Ref>, files: Files, todo: set<string>, sid: string)
    requires WellFormed(s) && sid in s.agents && sid in todo
    ensures var r := s.agents[sid];
            && ResolveBut(s, files, todo).heap[r] == s.heap[r]
            && ResolveBut(s, files, todo - {sid}).heap
               == ResolveBut(s, files, todo).heap[r := ResolveIdentity(s.heap[r], files)]
  {
  }

  function DeadInStore<Ref>(s: Store<Ref>, alive: set<string>): set<string>
    requires WellFormed(s)
  {
    set sid | sid in s.agents && Dead(s.heap[s.agents[sid]], sid, alive)
  }

  function ReapStore<Ref>(s: Store<Ref>, alive: set<string>): Store<Ref>
    requires WellFormed(s)
  {
    Store(s.heap, s.agents - DeadInStore(s, alive))
  }

  lemma UpdateRefines<Ref>(s: Store<Ref>, sid: string, v: Record)
    requires WellFormed(s) && sid in s.agents && v.sessionId == sid
    ensures var s' := Store(s.heap[s.agents[sid] := v], s.agents);
            WellFormed(s') && Values(s') == Values(s)[sid := v]
    ensures var s' := Store(s.heap[s.agents[sid] := v], s.agents - {sid});
            WellFormed(s') && Values(s') == Values(s) - {sid}
  {
  }

  lemma InsertRefines<Ref>(s: Store<Ref>, sid: string, r: Ref, v: Record)
    requires WellFormed(s) && r !in s.heap && v.sessionId == sid
    ensures var s' := Store(s.heap[r := v], s.agents[sid := r]);
            WellFormed(s') && Values(s') == Values(s)[sid := v]
  {
  }

  /** Updating shared record objects in place is, by value, one step of the plain registry. */
  lemma EventRefinesValues<Ref>(s: Store<Ref>, e: HookEvent, now: int, files: Files, r: Ref)
    requires WellFormed(s) && (e.sessionId !in s.agents ==> r !in s.heap)
    ensures WellFormed(EventStore(s, e, now, files, r))
    ensures Values(EventStore(s, e, now, files, r)) == Next(Values(s), EventStep(e, now, files))
  {
    if e.sessionId in s.agents {
      var before := s.heap[s.agents[e.sessionId]];
      EventKeepsId(true, before, e, now, files);
      UpdateRefines(s, e.sessionId, AfterEvent(true, before, e, now, files));
    } else {
      EventKeepsId(false, NewRecord(e, now), e, now, files);
      if OpFor(false, e) == OpRemove {
        assert Values(s) - {e.sessionId} == Values(s);
      } else {
        InsertRefines(s, e.sessionId, r, AfterEvent(false, NewRecord(e, now), e, now, files));
      }
    }
  }

  lemma KnownEventWellFormed<Ref>(s: Store<Ref>, e: HookEvent, now: int, files: Files)
    requires WellFormed(s) && e.sessionId in s.agents
    ensures WellFormed(KnownEvent(s, e, now, files))
  {
    EventKeepsId(true, s.heap[s.agents[e.sessionId]], e, now, files);
  }

  lemma NewEventWellFormed<Ref>(s: Store<Ref>, e: HookEvent, now: int, files: Files, r: Ref)
    requires WellFormed(s) && r !in s.heap
    ensures WellFormed(NewEvent(s, e, now, files, r))
  {
    EventKeepsId(false, NewRecord(e, now), e, now, files);
  }

  lemma ResolveKeepsWellFormed<Ref>(s: Store<Ref>, files: Files, todo: set<string>)
    requires WellFormed(s)
    ensures WellFormed(ResolveBut(s, files, todo))
  {
  }

  lemma ResolveRefinesValues<Ref>(s: Store<Ref>, files: Files)
    requires WellFormed(s)
    ensures WellFormed(ResolveStore(s, files))
    ensures Values(ResolveStore(s, files)) == Next(Values(s), ResolveStep(files))
  {
    ResolveKeepsWellFormed(s, files, {});
    var s' := ResolveStore(s, files);
    forall sid | sid in s.agents ensures s'.heap[s.agents[sid]] == ResolveIdentity(s.heap[s.agents[sid]], files) {
      assert Registered(s, s.agents[sid]);
    }
  }

  lemma ReapRefinesValues<Ref>(s: Store<Ref>, alive: set<string>)
    requires WellFormed(s)
    ensures WellFormed(ReapStore(s, alive))
    ensures Values(ReapStore(s, alive)) == Next(Values(s), ReapStep(alive))
  {
    assert DeadInStore(s, alive) == DeadIds(Values(s), alive);
  }

  lemma SweepRefinesValues<Ref>(s: Store<Ref>, files: Files, alive: set<string>)
    requires WellFormed(s)
    ensures WellFormed(ResolveStore(s, files)) && WellFormed(ReapStore(s, alive))
    ensures Values(ResolveStore(s, files)) == Next(Values(s), ResolveStep(files))
    ensures Values(ReapStore(s, alive)) == Next(Values(s), ReapStep(alive))
  {
    ResolveRefinesValues(s, files);
    ReapRefinesValues(s, alive);
  }

  /** Record objects that are not registered any more, or belong to another session, are left alone. */
  lemma OtherRecordsStay<Ref>(s: Store<Ref>, e: HookEvent, now: int, files: Files, created: Ref, r: Ref)
    requires WellFormed(s) && r in s.heap && (e.sessionId !in s.agents ==> created !in s.heap)
    ensures (forall sid :: sid in s.agents ==> s.agents[sid] != r) ==> ResolveStore(s, files).heap[r] == s.heap[r]
    ensures (e.sessionId in s.agents ==> s.agents[e.sessionId] != r) ==>
              r in EventStore(s, e, now, files, created).heap
              && EventStore(s, e, now, files, created).heap[r] == s.heap[r]
  {
  }

  // ---- the registry object ----

  /** The record object's new value, filed as the outcome of the event says, is the event step. */
  lemma EventIsFiled(s: Store<AgentRecord>, s': Store<AgentRecord>, e: HookEvent, now: int, files: Files,
                     record: AgentRecord?)
    requires WellFormed(s)
    requires var known := e.sessionId in s.agents;
             && (record == null <==> OpFor(known, e) == OpRemove)
             && (known ==>
                   var r := s.agents[e.sessionId];
                   && s'.heap == s.heap[r := AfterEvent(true, s.heap[r], e, now, files)]
                   && (record != null ==> record == r))
             && (!known && record == null ==> s'.heap == s.heap)
             && (!known && record != null ==>
                   && record !in s.heap
                   && s'.heap == s.heap[record := AfterEvent(false, NewRecord(e, now), e, now, files)])
    requires s'.agents == if record == null then s.agents - {e.sessionId}
                          else if OpFor(e.sessionId in s.agents, e) == OpUpsert then s.agents[e.sessionId := record]
                          else s.agents
    ensures WellFormed(s')
    ensures e.sessionId in s.agents ==> s' == KnownEvent(s, e, now, files)
    ensures e.sessionId !in s.agents && record != null ==> s' == NewEvent(s, e, now, files, record)
    ensures e.sessionId !in s.agents && record == null ==> s' == s
    ensures record != null ==> e.sessionId in s'.agents && s'.agents[e.sessionId] == record
    ensures e.sessionId in s'.agents <==> e.kind != SessionEnd
    ensures s'.agents - {e.sessionId} == s.agents - {e.sessionId}
  {
    OpByKind(e.sessionId in s.agents, e);
    if e.sessionId in s.agents {
      KnownEventWellFormed(s, e, now, files);
      assert s'.agents == KnownEvent(s, e, now, files).agents;
    } else if record != null {
      NewEventWellFormed(s, e, now, files, record);
    } else {
      assert s'.agents == s.agents;
    }
  }

  class SessionRegistry {
    var agents: map<string, AgentRecord>
    ghost var heap: map<AgentRecord, Record>  // every record object ever held, with its present value

    ghost predicate Valid()
      reads this, heap.Keys
    {
      Tracked() && WellFormed(State())
    }

    ghost predicate Tracked()
      reads this`heap, heap.Keys
    {
      forall r :: r in heap ==> r.Value() == heap[r]
    }

    ghost function State(): Store<AgentRecord>
      reads this
    {
      Store(heap, agents)
    }

    constructor ()
      ensures Valid() && State() == Store(map[], map[])
    {
      agents, heap := map[], map[];
    }

    method Seed(record: AgentRecord)
      requires Valid() && record !in heap
      modifies this
      ensures Valid() && State() == SeedStore(old(State()), record, record.Value())
    {
      agents := agents[record.sessionId := record];
      heap := heap[record := record.Value()];
    }

    /** Entries of the sessions directory, seeded in listing order. */
    method ColdStart(files: seq<FileEntry>, now: int)
      requires Valid() && agents == map[]
      modifies this
      ensures Valid() && fresh(heap.Keys - old(heap.Keys))
      ensures Values(State()) == Seeded(files, now)
    {
      var i := 0;
      while i < |files|
        invariant 0 <= i <= |files|
        invariant Valid() && fresh(heap.Keys - old(heap.Keys))
        invariant Values(State()) == Seeded(files[..i], now)
      {
        if Seedable(files[i]) {
          var r := new AgentRecord(SeedRecord(files[i], now));
          InsertRefines(State(), r.sessionId, r, SeedRecord(files[i], now));
          Seed(r);
        }
        assert files[..i + 1][..i] == files[..i];
        i := i + 1;
      }
      assert files[..i] == files;
    }

    /** Applies one event. The returned reference is the registered object itself. */
    method ApplyEvent(e: HookEvent, now: int, files: Files) returns (record: AgentRecord?, op: Op)
      requires Valid()
      modifies this, heap.Keys
      ensures Valid() && fresh(heap.Keys - old(heap.Keys))
      ensures op == OpFor(e.sessionId in old(agents), e)
      ensures e.sessionId in agents <==> e.kind != SessionEnd
      ensures agents - {e.sessionId} == old(agents) - {e.sessionId}
      ensures record == null <==> op == OpRemove
      ensures record != null ==> e.sessionId in agents && agents[e.sessionId] == record
      ensures e.sessionId in old(agents) ==> State() == KnownEvent(old(State()), e, now, files)
      ensures e.sessionId !in old(agents) && record != null ==>
                record !in old(heap) && State() == NewEvent(old(State()), e, now, files, record)
      ensures e.sessionId !in old(agents) && record == null ==> State() == old(State())
    {
      ghost var s := State();
      var existing: AgentRecord? := if e.sessionId in agents then agents[e.sessionId] else null;
      record, op := Advance(existing, e, now, files);
      Register(e.sessionId, record, op);
      EventIsFiled(s, State(), e, now, files, record);
    }

    method Register(sid: string, record: AgentRecord?, op: Op)
      modifies this`agents
      ensures agents == if op == OpRemove then old(agents) - {sid}
                        else if op == OpUpsert && record != null then old(agents)[sid := record]
                        else old(agents)
    {
      if op == OpRemove {
        agents := agents - {sid};
      } else if op == OpUpsert && record != null {
        agents := agents[sid := record];
      }
    }

    /** The state machine's transition, followed by identity resolution when a diff is due. */
    static method Transition(existing: AgentRecord?, e: HookEvent, now: int, files: Files)
      returns (record: AgentRecord?, op: Op)
      modifies existing
      ensures op == OpFor(existing != null, e)
      ensures record == null <==> op == OpRemove
      ensures existing != null ==> existing.Value() == AfterEvent(true, old(existing.Value()), e, now, files)
      ensures existing != null && record != null ==> record == existing
      ensures existing == null && record != null ==>
                fresh(record) && record.Value() == AfterEvent(false, NewRecord(e, now), e, now, files)
    {
      record, op := StateMachine.ApplyEvent(existing, e, now);
      if op == OpUpsert && record != null {
        ResolveOne(record, files);
      }
    }

    /** The same, with the values of all record objects kept track of. */
    method Advance(existing: AgentRecord?, e: HookEvent, now: int, files: Files)
      returns (record: AgentRecord?, op: Op)
      requires Tracked() && (existing != null ==> existing in heap)
      modifies this`heap, existing
      ensures Tracked()
      ensures op == OpFor(existing != null, e)
      ensures record == null <==> op == OpRemove
      ensures existing != null ==> heap == old(heap)[existing := AfterEvent(true, old(heap)[existing], e, now, files)]
      ensures existing != null && record != null ==> record == existing
      ensures existing == null && record != null ==>
                fresh(record) && heap == old(heap)[record := AfterEvent(false, NewRecord(e, now), e, now, files)]
      ensures existing == null && record == null ==> heap == old(heap)
    {
      record, op := Transition(existing, e, now, files);
      if existing != null {
        heap := heap[existing := existing.Value()];
      } else if record != null {
        heap := heap[record := record.Value()];
      }
    }

    static method ResolveOne(record: AgentRecord, files: Files)
      modifies record
      ensures record.Value() == ResolveIdentity(old(record.Value()), files)
      ensures record.sessionId == old(record.sessionId)
    {
      if record.pid.Some? { return; }
      if record.sessionId in files {
        var info := files[record.sessionId];
        record.pid := info.pid;
        record.entrypoint := if info.entrypoint.Some? then info.entrypoint.value else record.entrypoint;
        if OrElse(info.name, "") != "" { record.projectName := info.name.value; }
      }
    }

    method ResolveTracked(r: AgentRecord, files: Files)
      requires Tracked() && r in heap
      modifies this`heap, r
      ensures Tracked() && heap == old(heap)[r := ResolveIdentity(old(heap)[r], files)]
    {
      if r.pid.None? {
        ResolveOne(r, files);
        heap := heap[r := r.Value()];
      }
    }

    /** One turn of the retry loop; `s` is the state the sweep started from. */
    method RetryResolution(sid: string, files: Files, ghost s: Store<AgentRecord>, ghost todo: set<string>)
      requires Tracked() && WellFormed(s) && sid in s.agents && sid in todo
      requires State() == ResolveBut(s, files, todo)
      modifies this`heap, heap.Keys
      ensures Tracked() && State() == ResolveBut(s, files, todo - {sid})
    {
      ResolveOneMore(s, files, todo, sid);
      ResolveTracked(agents[sid], files);
    }

    method ResolvePendingIdentities(files: Files)
      requires Valid()
      modifies this`heap, heap.Keys
      ensures Valid() && heap.Keys == old(heap.Keys)
      ensures State() == ResolveStore(old(State()), files)
    {
      ghost var s := State();
      var todo := agents.Keys;
      while todo != {}
        invariant todo <= agents.Keys && heap.Keys == s.heap.Keys
        invariant Tracked() && State() == ResolveBut(s, files, todo)
        decreases todo
      {
        var sid :| sid in todo;
        RetryResolution(sid, files, s, todo);
        todo := todo - {sid};
      }
      ResolveKeepsWellFormed(s, files, {});
    }

    /** Removes and reports exactly the sessions with a known dead pid, each once, in any order. */
    method ReapDead(alive: set<string>) returns (dead: seq<string>)
      requires Valid()
      modifies this`agents
      ensures Valid() && State() == ReapStore(old(State()), alive)
      ensures forall sid :: sid in dead <==> sid in DeadInStore(old(State()), alive)
      ensures forall sid :: sid in dead <==>
                && sid in old(agents) && old(agents[sid].pid).Some?
                && (old(agents[sid].pid).value == 0 || sid !in alive)
      ensures forall i, j :: 0 <= i < j < |dead| ==> dead[i] != dead[j]
    {
      dead := ListDead(alive);
      ghost var ids := DeadInStore(State(), alive);
      Forget(dead);
      assert (set sid | sid in dead) == ids;
    }

    method ListDead(alive: set<string>) returns (dead: seq<string>)
      requires Valid()
      ensures forall sid :: sid in dead <==> sid in DeadInStore(State(), alive)
      ensures forall i, j :: 0 <= i < j < |dead| ==> dead[i] != dead[j]
    {
      dead := [];
      var todo := agents.Keys;
      while todo != {}
        invariant todo <= agents.Keys
        invariant forall sid :: sid in dead <==> sid in agents && sid !in todo && Dead(agents[sid].Value(), sid, alive)
        invariant forall i, j :: 0 <= i < j < |dead| ==> dead[i] != dead[j]
        decreases todo
      {
        var sid :| sid in todo;
        if Dead(agents[sid].Value(), sid, alive) { dead := dead + [sid]; }
        todo := todo - {sid};
      }
    }

    method Forget(dead: seq<string>)
      modifies this`agents
      ensures agents == old(agents) - (set sid | sid in dead)
    {
      for i := 0 to |dead|
        invariant agents == old(agents) - (set sid | sid in dead[..i])
      {
        agents := agents - {dead[i]};
      }
    }
  }
}
